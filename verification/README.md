# streamlit-funplayer: theme, web component and Python argument model

streamlit-funplayer is a Streamlit component that plays media in sync with haptic
scripts. This project models three parts of it in Dafny and proves properties of them.

- **Theme utilities** (`ThemeUtils.js`). These turn a Streamlit theme object into
  `--fp-` CSS custom properties: camelCase keys become kebab-case names, and a hex
  `primaryColor` gets two `rgba()` tints. They also build the style block of the
  shadow root, apply a theme to an element's inline style, and check and sanitize
  theme objects.
- **The `<fun-player>` custom element** (`FunPlayerWebComponent.js`). It covers the
  lifecycle fields, the style blocks in the shadow root, the reused theme block, the
  props handed to React, and the mutation filter that decides when the page's styles
  are copied in again.
- **The Python entry points** (`__init__.py`). `funplayer` normalises its arguments
  into the `component_args` dictionary; `create_funscript` builds a default funscript.

Files and modules:

| file | module | contents |
|---|---|---|
| `wrappers.dfy` | `Wrappers` | `Option`, `Result` |
| `text.dfy` | `Text` | ASCII case, decimal and hexadecimal digits |
| `dicts.dfy` | `Dicts` | insertion-ordered dictionaries (JavaScript objects, Python dicts) as sequences of pairs |
| `js.dfy` | `Js` | JavaScript values, truthiness, `Object.entries`, `parseInt(s, 16)` |
| `theme_utils.dfy` | `ThemeUtils` | `ThemeUtils.js` |
| `theme_defaults.dfy` | `ThemeDefaults` | facts about the literal default table, and the second finding |
| `web_component.dfy` | `WebComponent` | `FunPlayerWebComponent.js` |
| `funplayer_api.dfy` | `FunplayerApi` | `__init__.py` |

Modelling choices:

- A generated CSS block is a list of declarations `Decl(property, value)`, not
  formatted text. A property's *effective value* in a block is its last declaration,
  as the CSS cascade decides within one block.
- The shadow root is a list of children: style elements (with an optional id and
  their contents), the React container, and the error panel.
  `getElementById` searches only these top-level children. That is exact, because
  the React subtree inside the container is opaque and never carries the theme block's id.
- `JSON.parse` is a constant function field of the element that may fail. The CSS
  parser behind `style.height` is another: a predicate that says which heights it accepts.
- JavaScript strings are sequences of Unicode characters. Where the source depends on
  UTF-16 code units (`hexToRgba`'s `length` and `substr`), the model counts them
  explicitly.
- A `Host` value says what the outside world does during a call: the CSS extracted
  from the page, and whether style injection, `createRoot` or rendering throws.
- The `async` initialisation runs its steps one after the other.
- The web component applies themes through the corrected `buildShadowDOMThemeCSS`
  (see Findings). The as-written builder is modelled beside it.

## Model

| member | source | states |
|---|---|---|
| ThemeUtils.ConvertToCssVar | streamlit_funplayer/frontend/src/ThemeUtils.js:54-56 | The result is the generic rule: `--fp-` followed by the key, with each ASCII capital turned into `-` plus the letter, all lower-cased. It therefore starts with `--fp-` and contains no ASCII capital. |
| ThemeUtils.MappingsFollowRule | streamlit_funplayer/frontend/src/ThemeUtils.js:13-22 | Every entry of `CSS_VAR_MAPPINGS` equals the generic rule applied to its key, so the table never changes the result. |
| ThemeUtils.ConvertMappedKey | streamlit_funplayer/frontend/src/ThemeUtils.js:54-55 | A key of the table is converted to its table entry. |
| ThemeUtils.RuleOfTwoWords | streamlit_funplayer/frontend/src/ThemeUtils.js:55 | A two-word camelCase key `firstSecond` becomes `--fp-first-second`. |
| ThemeUtils.HyphenateConcat | streamlit_funplayer/frontend/src/ThemeUtils.js:55 | The capital-hyphenating replacement distributes over concatenation. |
| ThemeUtils.ConvertToCssVarAsWritten | streamlit_funplayer/frontend/src/ThemeUtils.js:54-56 | The plain property read on the table returns an inherited `Object.prototype` member exactly for the inherited member names. On every other key it agrees with `ConvertToCssVar`. |
| ThemeUtils.PrototypeMembersUnmapped | streamlit_funplayer/frontend/src/ThemeUtils.js:13-22 | No key of the table is an inherited member name. |
| ThemeUtils.ConstructorKeyAsWritten | streamlit_funplayer/frontend/src/ThemeUtils.js:54-56 | As written, `constructor` yields the inherited `Object` function; the rule gives `--fp-constructor`. |
| ThemeUtils.HexToRgba | streamlit_funplayer/frontend/src/ThemeUtils.js:64-84 | The result is null for a falsy or non-string input. Once the first `#` is removed, it is null for a JavaScript length (UTF-16 code units) other than 3 or 6, and for any character outside the BMP. |
| Text.Utf16Length | streamlit_funplayer/frontend/src/ThemeUtils.js:71-75 | A string's `length` counts UTF-16 code units: at least one per character, and exactly one per character when all lie in the BMP. |
| ThemeUtils.ShortFormMatchesLongForm | streamlit_funplayer/frontend/src/ThemeUtils.js:71-73 | A 3-digit colour gives the same result as its doubled 6-digit form, with or without `#`. |
| ThemeUtils.SixDigitRoundTrip | streamlit_funplayer/frontend/src/ThemeUtils.js:75-83 | Six hex digits parse to three channels below 256. Their two-digit re-encoding is the lower-cased input. The result is `rgba(r, g, b, alpha)`, with or without a leading `#`. |
| ThemeUtils.ParseSixDigits | streamlit_funplayer/frontend/src/ThemeUtils.js:77-79 | Each channel is the value of its two hex digits. |
| Js.ParseTwoHexDigits | streamlit_funplayer/frontend/src/ThemeUtils.js:77-79 | `parseInt` of two hex digits in base 16 is their byte value. |
| ThemeUtils.HexToRgbaParsesForAnyAlpha | streamlit_funplayer/frontend/src/ThemeUtils.js:64-84 | Whether a colour converts does not depend on the alpha. |
| ThemeUtils.TintsBothOrNeither | streamlit_funplayer/frontend/src/ThemeUtils.js:106-111 | The hover and focus tints are pushed together or not at all, with alphas 0.1 and 0.25. |
| ThemeUtils.BuildThemeCSS | streamlit_funplayer/frontend/src/ThemeUtils.js:95-119 | The loop over `Object.entries(theme)` produces exactly `ThemeCssOf(theme)`: the variable declarations and the derived tints. |
| ThemeUtils.VisitThemeEntry | streamlit_funplayer/frontend/src/ThemeUtils.js:100-113 | One entry adds its variable (none for `base`) and, for `primaryColor`, its tints. |
| ThemeUtils.PushTints | streamlit_funplayer/frontend/src/ThemeUtils.js:107-110 | Only the tints that convert are pushed: hover first, then focus. |
| ThemeUtils.VarDeclsOnePerEntry | streamlit_funplayer/frontend/src/ThemeUtils.js:100-104 | There is one declaration per non-`base` entry, in order, named by `convertToCssVar` and holding the entry's value. |
| ThemeUtils.DerivedOnlyFromPrimaryColor | streamlit_funplayer/frontend/src/ThemeUtils.js:106-111 | The derived declarations are exactly the tints of `primaryColor`, and there are none without it. |
| ThemeUtils.NonBaseEntries | streamlit_funplayer/frontend/src/ThemeUtils.js:102 | Keeps exactly the entries whose key is not `base`. |
| ThemeUtils.DarkThemeDecls | streamlit_funplayer/frontend/src/ThemeUtils.js:125-134 | There is one declaration per dark override. |
| ThemeUtils.DarkOverridesHaveDefaults | streamlit_funplayer/frontend/src/ThemeUtils.js:24-43 | Every dark override names a property that has a default and that some theme key maps to. |
| ThemeUtils.BuildShadowDOMThemeCSSAsWritten | streamlit_funplayer/frontend/src/ThemeUtils.js:186-230 | As written, the container block holds the theme variables, the derived tints, the three applications, all defaults and then the dark overrides. The component rules follow. |
| ThemeUtils.DefaultsOverrideThemeAsWritten | streamlit_funplayer/frontend/src/ThemeUtils.js:195-212 | As written, any property that has a default takes the default value in the container block, whatever the theme says. |
| ThemeUtils.DarkOverridesLastAsWritten | streamlit_funplayer/frontend/src/ThemeUtils.js:206-211 | As written, the block ends with the dark overrides in dark mode and with the defaults otherwise. |
| ThemeUtils.BuildShadowDOMThemeCSS | streamlit_funplayer/frontend/src/ThemeUtils.js:186-230 | Corrected builder: the defaults (and dark overrides) come first, then the theme variables, the tints and the applications. |
| ThemeUtils.ThemeOverridesDefaults | streamlit_funplayer/frontend/src/ThemeUtils.js:186-212 | In the corrected block, a custom property set by the theme takes the theme's value; any other takes its default. |
| ThemeUtils.DefaultsCover | streamlit_funplayer/frontend/src/ThemeUtils.js:24-36 | Every property of the default table has a value in the default declarations, light or dark. |
| ThemeUtils.EffectiveValueAppend | streamlit_funplayer/frontend/src/ThemeUtils.js:195-212 | In a block made of two parts, the later part's declaration of a property wins. |
| ThemeUtils.IsValidTheme | streamlit_funplayer/frontend/src/ThemeUtils.js:241-247 | True exactly for an object that has an own key among the table keys and `base`. An array never qualifies. |
| ThemeUtils.ArrayKeysNotValid | streamlit_funplayer/frontend/src/ThemeUtils.js:241-246 | The index keys of an array are never valid theme keys. |
| ThemeUtils.SanitizeTheme | streamlit_funplayer/frontend/src/ThemeUtils.js:254-267 | The loop builds `Obj(Sanitized(theme))`: only entries with a valid key and a non-null value, without repeated keys. |
| ThemeUtils.SanitizeKeepsExactly | streamlit_funplayer/frontend/src/ThemeUtils.js:254-267 | A valid theme keeps exactly its entries with a valid key and a non-null value, in order. An invalid one gives `{}`. |
| ThemeUtils.SanitizeIdempotent | streamlit_funplayer/frontend/src/ThemeUtils.js:254-267 | Sanitizing a sanitized theme changes nothing. |
| ThemeUtils.SanitizedValidIffNonEmpty | streamlit_funplayer/frontend/src/ThemeUtils.js:241-267 | A sanitized theme is valid exactly when it is non-empty. |
| ThemeUtils.SetStyle | streamlit_funplayer/frontend/src/ThemeUtils.js:156 | `setProperty` stores the value, or removes the property when the value is null or prints as the empty string. Other properties are untouched. |
| ThemeUtils.RemovedValues | streamlit_funplayer/frontend/src/ThemeUtils.js:156 | `""`, `[]` and `[null]` remove a property. `undefined`, `0`, `{}` and `[null, undefined]` (which prints as `,`) do not. |
| ThemeUtils.ApplyDeclsGet | streamlit_funplayer/frontend/src/ThemeUtils.js:153-166 | After the writes, a property holds its last written value, or keeps its old value when it is not written. |
| ThemeUtils.StyleWritesAreThemeDecls | streamlit_funplayer/frontend/src/ThemeUtils.js:153-166 | The element receives, as a multiset, the same declarations that `buildThemeCSS` produces. |
| ThemeUtils.StyledElement.SetProperty | streamlit_funplayer/frontend/src/ThemeUtils.js:156 | The inline style becomes `SetStyle` of the old one. The attributes are unchanged. |
| ThemeUtils.StyledElement.SetAttribute | streamlit_funplayer/frontend/src/ThemeUtils.js:170 | The attribute is stored. The style is unchanged. |
| ThemeUtils.ApplyThemeToElement | streamlit_funplayer/frontend/src/ThemeUtils.js:146-178 | Returns false exactly for a falsy theme or a missing element, and then nothing changes. Otherwise null options throw a TypeError, with nothing changed. In the remaining case it returns true, and the style becomes the old style with every write applied in order. `data-theme` is set to `base` exactly when the `setDataTheme` option (true when undefined) and `base` are truthy. |
| ThemeUtils.SetDataThemeOption | streamlit_funplayer/frontend/src/ThemeUtils.js:149 | The destructured option is its value, or true when it is undefined. |
| ThemeUtils.ApplyEntryToElement | streamlit_funplayer/frontend/src/ThemeUtils.js:153-166 | One entry writes its variable and, for `primaryColor`, its tints. |
| ThemeUtils.ApplyTintsToElement | streamlit_funplayer/frontend/src/ThemeUtils.js:159-164 | Only the tints that convert are written. |
| ThemeDefaults.PrimaryTintsAgree | streamlit_funplayer/frontend/src/ThemeUtils.js:25-34 | The default hover and focus colours are `hexToRgba` of the default primary colour at 0.1 and 0.25. |
| ThemeDefaults.DisabledTintAgrees | streamlit_funplayer/frontend/src/ThemeUtils.js:28-35 | The default disabled colour is `hexToRgba` of the default text colour at 0.3. |
| ThemeDefaults.DefaultPrimaryDecl | streamlit_funplayer/frontend/src/ThemeUtils.js:25 | The default declarations give the primary colour `#FF4B4B`, light or dark. |
| ThemeDefaults.PrimaryColorIgnoredAsWritten | streamlit_funplayer/frontend/src/ThemeUtils.js:186-212 | As written, a theme setting only `primaryColor` leaves the container's primary colour at `#FF4B4B`, whatever the colour. |
| ThemeDefaults.PrimaryColorAppliedCorrected | streamlit_funplayer/frontend/src/ThemeUtils.js:186-212 | With the corrected builder, the same theme gives the container its own primary colour. |
| WebComponent.DetectStyleChanges | streamlit_funplayer/frontend/src/FunPlayerWebComponent.js:359-370 | True exactly when some `childList` record adds a `STYLE` node or a `LINK` node with `rel="stylesheet"`. |
| WebComponent.FindById | streamlit_funplayer/frontend/src/FunPlayerWebComponent.js:125 | `getElementById` finds the first child with the id, and finds nothing exactly when no child has it. |
| WebComponent.PutThemeBlockUnique | streamlit_funplayer/frontend/src/FunPlayerWebComponent.js:125-134 | Afterwards exactly one child has the theme id and it holds the new rules. The other children stay in place, and a block is appended only when none existed. |
| WebComponent.ThemeAppliedKeepsUnique | streamlit_funplayer/frontend/src/FunPlayerWebComponent.js:112-134 | The theme block stays unique. The shadow root changes only for a truthy theme whose sanitized form is valid. |
| WebComponent.ThemeAppliedIdempotent | streamlit_funplayer/frontend/src/FunPlayerWebComponent.js:112-134 | Applying the same theme twice gives the same shadow root as applying it once. |
| WebComponent.ThemeAppliedKeepsChild | streamlit_funplayer/frontend/src/FunPlayerWebComponent.js:125-134 | Applying a theme keeps every child other than the theme block, such as the injected styles and the React container. |
| WebComponent.FunPlayerElement.RenderedKeepsChild | streamlit_funplayer/frontend/src/FunPlayerWebComponent.js:199-224 | A render keeps every child other than the theme block. |
| WebComponent.ResizeDetail | streamlit_funplayer/frontend/src/FunPlayerWebComponent.js:241-243 | The event detail is the dimensions, or `{width: 0, height: 0}` when they are falsy. |
| WebComponent.FunPlayerElement.constructor | streamlit_funplayer/frontend/src/FunPlayerWebComponent.js:22-40 | No React root, no styles, no promise, no observer, and an empty shadow root. |
| WebComponent.FunPlayerElement.PlaylistProp | streamlit_funplayer/frontend/src/FunPlayerWebComponent.js:203-211 | There is no `playlist` prop for a missing or empty attribute. The prop is `[]` when the attribute does not parse, and the parsed value otherwise. |
| WebComponent.FunPlayerElement.ThemeProp | streamlit_funplayer/frontend/src/FunPlayerWebComponent.js:213-224 | A `theme` prop exists exactly for a non-empty attribute that parses, and holds the parsed value. |
| WebComponent.FunPlayerElement.ConnectedCallback | streamlit_funplayer/frontend/src/FunPlayerWebComponent.js:46-56 | With a promise already held, nothing changes. Otherwise it initialises once. A root exists exactly when `createRoot` succeeds, and either failure shows the error panel. On success: one render with the attribute props; the shadow root is the injected (or fallback) block and the React container appended, then the theme prop applied; both children remain; exactly one observer is created when injection succeeds. |
| WebComponent.FunPlayerElement.DisconnectedCallback | streamlit_funplayer/frontend/src/FunPlayerWebComponent.js:58-61 | Afterwards all four lifecycle fields are reset. |
| WebComponent.FunPlayerElement.Cleanup | streamlit_funplayer/frontend/src/FunPlayerWebComponent.js:518-541 | Disconnects the observer, unmounts the root and resets both flags. The shadow root and the attributes are kept, so a later connect initialises again. |
| WebComponent.FunPlayerElement.SetAttribute | streamlit_funplayer/frontend/src/FunPlayerWebComponent.js:63-84 | The attribute is stored under its name with ASCII letters lower-cased, as an HTML element does, so `THEME` reaches the `theme` callback. Nothing else changes for an unobserved name, an unchanged value or a missing root. For an observed change with a root, one render with the new attribute props is added; the shadow root gets the theme step, then the render's theme; a render failure shows the error panel. |
| WebComponent.FunPlayerElement.ThemeSetAppliedOnce | streamlit_funplayer/frontend/src/FunPlayerWebComponent.js:63-80 | Once `theme` holds the new value, the callback's theme step and the render apply the same theme, and the result equals applying it once. |
| WebComponent.FunPlayerElement.AttributeChangedCallback | streamlit_funplayer/frontend/src/FunPlayerWebComponent.js:63-80 | Nothing changes for an unchanged value or without a root. Otherwise one render with the current attribute props is added. The shadow root becomes the render of the theme step: for `theme`, the parsed `newValue \|\| '{}'` is applied when it parses. A render failure shows the error panel. |
| WebComponent.FunPlayerElement.InitializeAsync | streamlit_funplayer/frontend/src/FunPlayerWebComponent.js:90-106 | Styles are injected first, then React. The same outcomes as `ConnectedCallback` hold. On success, the shadow root is the styled root, the container appended and the theme prop applied. The observer count grows by one exactly when styles were not yet injected and injection succeeds. |
| WebComponent.FunPlayerElement.InjectStylesAsync | streamlit_funplayer/frontend/src/FunPlayerWebComponent.js:254-317 | Once styles are injected, a call changes nothing. Otherwise it appends the injected block and creates one observer; when injection fails it appends the fallback block and creates none. |
| WebComponent.FunPlayerElement.InjectFallbackStylesOnly | streamlit_funplayer/frontend/src/FunPlayerWebComponent.js:437-471 | Appends the fallback block once. Once styles are injected, it changes nothing. |
| WebComponent.FunPlayerElement.ObserveStyleChanges | streamlit_funplayer/frontend/src/FunPlayerWebComponent.js:355-388 | Creates an observer (the count grows by one) only when none is installed. Afterwards one is installed. Nothing else changes. |
| WebComponent.FunPlayerElement.OnStyleMutations | streamlit_funplayer/frontend/src/FunPlayerWebComponent.js:359-376 | The injected block is rewritten only while the observer is installed and the records pass the filter. |
| WebComponent.FunPlayerElement.UpdateStylesFromChanges | streamlit_funplayer/frontend/src/FunPlayerWebComponent.js:390-435 | Rewrites the first injected block in place. Without one, it changes nothing. |
| WebComponent.FunPlayerElement.ApplyThemeToShadowDOM | streamlit_funplayer/frontend/src/FunPlayerWebComponent.js:112-142 | Gives the shadow root of `ThemeApplied`: unchanged for a falsy theme or an invalid sanitized theme, otherwise the single theme block holds the rules of the sanitized theme. |
| WebComponent.FunPlayerElement.WriteThemeBlock | streamlit_funplayer/frontend/src/FunPlayerWebComponent.js:125-134 | Reuses the block with the theme id, or appends one. |
| WebComponent.BuildThemeRules | streamlit_funplayer/frontend/src/FunPlayerWebComponent.js:134 | The rules for the shadow container selector, built by the corrected `buildShadowDOMThemeCSS` (defaults first, then the theme). |
| WebComponent.FunPlayerElement.InitializeReact | streamlit_funplayer/frontend/src/FunPlayerWebComponent.js:156-177 | A root exists exactly when `createRoot` succeeds; a failure shows the error panel. On success, the first render uses the attribute props, and the shadow root is the old one with the container appended and the theme prop applied; the container stays. |
| WebComponent.FunPlayerElement.UpdateReactComponent | streamlit_funplayer/frontend/src/FunPlayerWebComponent.js:179-197 | Without a root, nothing changes. Otherwise one render with the current attribute props is added, and the shadow root is the old one with the parsed theme prop applied. A failure shows the error panel. |
| WebComponent.FunPlayerElement.BuildReactProps | streamlit_funplayer/frontend/src/FunPlayerWebComponent.js:199-248 | The props are the playlist and theme props of the attributes. A parsed theme is applied to the shadow root; otherwise it is untouched. |
| WebComponent.FunPlayerElement.OnResize | streamlit_funplayer/frontend/src/FunPlayerWebComponent.js:231-245 | For truthy dimensions with a truthy height, assigns the height followed by `px`, which the style keeps only when the CSS parser accepts it. It always records one event with `ResizeDetail`. |
| WebComponent.FunPlayerElement.ShowErrorFallback | streamlit_funplayer/frontend/src/FunPlayerWebComponent.js:477-512 | The shadow root's content becomes the error panel alone. The lifecycle fields are kept. |
| WebComponent.RegisterFunPlayerWebComponent | streamlit_funplayer/frontend/src/FunPlayerWebComponent.js:548-557 | Returns true exactly when `fun-player` was not yet defined. Afterwards it is defined. |
| FunplayerApi.Funplayer | streamlit_funplayer/__init__.py:56-85 | A dict playlist is wrapped in a list. A list passes through. Any other non-None playlist raises the ValueError. The legacy item is built only when the playlist is None and one of media, funscript or poster is given. Without any of these there is no `playlist` key. A `theme` key exists exactly when theme is not None. There are no other keys. |
| FunplayerApi.PlaylistArg | streamlit_funplayer/__init__.py:59-80 | The value stored under `playlist`, or the ValueError, by the same cases. |
| FunplayerApi.LegacyItem | streamlit_funplayer/__init__.py:68-80 | The item holds the truthy ones among media, funscript and poster, with every kwarg over them. |
| FunplayerApi.LegacyItemGet | streamlit_funplayer/__init__.py:69-78 | Looking a key up in the item gives the kwarg when one exists, otherwise the truthy argument of that name, otherwise nothing. |
| FunplayerApi.ComponentArgsGet | streamlit_funplayer/__init__.py:56-83 | `component_args` holds only `playlist` and `theme`, each exactly when given. |
| FunplayerApi.Update | streamlit_funplayer/__init__.py:78 | `dict.update` assigns the other dictionary's entries one by one. |
| Dicts.PutAllGet | streamlit_funplayer/__init__.py:152 | After `update`, a key of the other dictionary has that dictionary's value; every other key keeps its value. |
| FunplayerApi.CreateFunscript | streamlit_funplayer/__init__.py:144-154 | Keys start with `version`, `inverted`, `range`, `actions`, without repeats. Without metadata (None or empty) it is exactly the defaults. Otherwise every metadata key overrides the default, `actions` included. |
| FunplayerApi.DefaultFunscriptFields | streamlit_funplayer/__init__.py:144-149 | The defaults are version `"1.0"`, inverted `False`, range 90 and the given actions. |

## Left out

- Logging (`console.*`), the `lastProcessedStylesCount` field (written, never read) and the `typeof`/`instanceof` checks on the shadow root. The element always has its open shadow root, so the `!this.shadowRoot` guards never fire.
- `extractAllExistingStyles` and the page's style sheets: the extracted CSS is an opaque string given by the host.
- The fixed text of the injected, updated and fallback blocks and of the error panel (its message and stack): each is represented by its kind.
- React rendering, the `FunPlayer` component, `createCallbackProps` and the event callbacks: a render is recorded with the props the model follows (`playlist`, `theme`), and a render failure is a host flag.
- The `CustomEvent` machinery of `onResize`: only the event detail is recorded.
- The real `MutationObserver`: records arrive through `OnStyleMutations`. The observer's own creation failure is not modelled.
- `load_funscript` (file I/O and `json.load`) and the Streamlit call `_component_func`: the model stops at the `component_args` dictionary.
- `create_funscript` with a truthy `metadata` that is not a dict: only dict or None metadata is modelled.
- JavaScript numbers are integers: there are no fractions, NaN or infinities. The alphas 0.1 and 0.25 are kept as the text they print as.
- CSS text formatting (indentation, comments and `join` separators): blocks are declaration lists.
- SetStyle: the value is stored as the JavaScript value given, standing for its string form. The CSS parser's rejection of a value that is not a valid custom-property value (an unbalanced `)`, say) is not modelled: every value that does not print as the empty string is stored.
- SetProperty: the same gap as `SetStyle`, which it applies.
- ConvertToCssVar: lower-cases ASCII letters only. JavaScript's `toLowerCase` also lowers other letters (`Ä` to `ä`), so on a key with a non-ASCII capital the model keeps the capital. No key of the mapping tables has one.
- ConvertToCssVarAsWritten: the same ASCII-only lower-casing as `ConvertToCssVar`.
- BuildThemeCSS: names each variable with the corrected `ConvertToCssVar`. For a key that is an `Object.prototype` member name (`constructor`, `toString`, …), the source instead prints the inherited member as the property name (first finding). A sanitized theme never has such a key.
- VisitThemeEntry: the same corrected-conversion gap as `BuildThemeCSS`.
- ApplyThemeToElement: the same corrected-conversion gap as `BuildThemeCSS`, for the name given to `setProperty`.
- ApplyEntryToElement: the same corrected-conversion gap as `BuildThemeCSS`.
- WebComponent.FunPlayerElement.ApplyThemeToShadowDOM: uses the corrected builder, so the as-written cascade of the shadow root is captured only by `ThemeUtils.BuildShadowDOMThemeCSSAsWritten` and its lemmas.
- WebComponent.BuildThemeRules: calls the corrected `BuildShadowDOMThemeCSS`, where the defaults and dark overrides come before the theme's variables. `FunPlayerWebComponent.js:134` calls the as-written builder, where they come after and win (second finding), so for a theme that sets a defaulted variable the source's container block gives that variable its default while this member gives it the theme's value. The as-written block is `ThemeUtils.BuildShadowDOMThemeCSSAsWritten`.
- Removing an attribute: there is no `removeAttribute` operation. `AttributeChangedCallback` accepts a missing new value, which parses as `{}`.
- Python dictionaries and kwargs are taken to have no repeated keys, as Python guarantees.

## Findings

| source | as written | input that shows it | evidently intended | confidence | as-written member | corrected member |
|---|---|---|---|---|---|---|
| streamlit_funplayer/frontend/src/ThemeUtils.js:54-56 | `CSS_VAR_MAPPINGS[key]` reads through the prototype chain, so inherited members are found | key `constructor` yields the `Object` function instead of `--fp-constructor` | only the table's own keys are looked up | medium, not executed | ThemeUtils.ConstructorKeyAsWritten | ThemeUtils.ConvertToCssVar |
| streamlit_funplayer/frontend/src/ThemeUtils.js:186-212 | the default values (and dark overrides) come after the theme's variables in the same block, so the defaults win | theme `{primaryColor: "#00FF00"}` leaves `--fp-primary-color` at `#FF4B4B` | the theme overrides the defaults | high, not executed | ThemeDefaults.PrimaryColorIgnoredAsWritten | ThemeDefaults.PrimaryColorAppliedCorrected |

/**
 * The theme resolver of the player: maps a theme (an object of colour and
 * typography tokens) to `--fp-` prefixed CSS custom properties, derives hover and
 * focus tints from the primary colour, adds dark-mode overrides, and validates
 * and filters theme objects.
 *
 * A theme is the list of its own properties in `Object.entries` order. CSS output
 * is a list of declarations (property, value), not formatted text.
 */
module ThemeUtils {
  import opened Wrappers
  import opened Text
  import opened Dicts
  import opened Js

  // ---------------------------------------------------------------------------
  // Constant tables
  // ---------------------------------------------------------------------------

  /** Theme key -> CSS custom property. */
  const CssVarMappings: Entries<string> := [
    ("primaryColor", "--fp-primary-color"),
    ("backgroundColor", "--fp-background-color"),
    ("secondaryBackgroundColor", "--fp-secondary-background-color"),
    ("textColor", "--fp-text-color"),
    ("borderColor", "--fp-border-color"),
    ("fontFamily", "--fp-font-family"),
    ("baseRadius", "--fp-base-radius"),
    ("spacing", "--fp-spacing")
  ]

  /** Default value of every custom property the player's stylesheet reads. */
  const DefaultThemeValues: Entries<string> := [
    ("--fp-primary-color", "#FF4B4B"),
    ("--fp-background-color", "#FFFFFF"),
    ("--fp-secondary-background-color", "#F0F2F6"),
    ("--fp-text-color", "#262730"),
    ("--fp-border-color", "#E6EBF5"),
    ("--fp-font-family", "\"Source Sans Pro\", sans-serif"),
    ("--fp-base-radius", "0.5rem"),
    ("--fp-spacing", "0.5rem"),
    ("--fp-hover-color", "rgba(255, 75, 75, 0.1)"),
    ("--fp-focus-color", "rgba(255, 75, 75, 0.25)"),
    ("--fp-disabled-color", "rgba(38, 39, 48, 0.3)")
  ]

  /** Values that replace the defaults when the theme's base is "dark". */
  const DarkThemeOverrides: Entries<string> := [
    ("--fp-background-color", "#0E1117"),
    ("--fp-secondary-background-color", "#262730"),
    ("--fp-text-color", "#FAFAFA"),
    ("--fp-border-color", "#464954")
  ]

  const BaseKey := "base"
  const PrimaryColorKey := "primaryColor"
  const HoverVar := "--fp-hover-color"
  const FocusVar := "--fp-focus-color"
  /** The alpha arguments 0.1 and 0.25, kept as the tokens they print as. */
  const HoverAlpha := "0.1"
  const FocusAlpha := "0.25"
  const DefaultContainerSelector := ".funplayer-shadow-container"

  /** The keys a theme may carry: the mapped keys and `base`. */
  const ValidKeys: seq<string> := Keys(CssVarMappings) + [BaseKey]

  // ---------------------------------------------------------------------------
  // Key -> CSS custom property
  // ---------------------------------------------------------------------------

  /** `key.replace(/([A-Z])/g, '-$1')`: a hyphen before every upper-case letter. */
  function HyphenateUpper(s: string): (r: string)
    ensures |r| >= |s|
  {
    if s == [] then []
    else (if IsUpper(s[0]) then ['-', s[0]] else [s[0]]) + HyphenateUpper(s[1..])
  }

  /** The generic rule: `--fp-` followed by the kebab-case form of the key. */
  function CssVarRule(key: string): (r: string)
    ensures |r| >= 5 && r[..5] == "--fp-" && NoUpper(r)
  {
    "--fp-" + LowerAll(HyphenateUpper(key))
  }

  lemma {:induction false} HyphenateConcat(a: string, b: string)
    ensures HyphenateUpper(a + b) == HyphenateUpper(a) + HyphenateUpper(b)
  {
    if a == [] {
      assert a + b == b;
    } else {
      assert (a + b)[1..] == a[1..] + b;
      HyphenateConcat(a[1..], b);
    }
  }

  lemma {:induction false} HyphenateLowerWord(s: string)
    requires NoUpper(s)
    ensures HyphenateUpper(s) == s
  {
    if s != [] {
      HyphenateLowerWord(s[1..]);
    }
  }

  /** A word without capitals is kept as it is by the rule. */
  lemma RuleOfLowerWord(a: string)
    requires NoUpper(a)
    ensures CssVarRule(a) == "--fp-" + a
  {
    HyphenateLowerWord(a);
  }

  lemma HyphenateNextWord(s: string, capital: char, rest: string)
    requires IsUpper(capital) && NoUpper(rest)
    ensures HyphenateUpper(s + [capital] + rest) == HyphenateUpper(s) + (['-', capital] + rest)
  {
    var tail := [capital] + rest;
    assert s + [capital] + rest == s + tail;
    HyphenateConcat(s, tail);
    HyphenateLowerWord(rest);
    assert tail[1..] == rest;
  }

  /** Appending a capitalised word appends a hyphen and the word in lower case. */
  lemma RuleOfNextWord(s: string, capital: char, rest: string)
    requires IsUpper(capital) && NoUpper(rest)
    ensures CssVarRule(s + [capital] + rest) == CssVarRule(s) + ['-', Lower(capital)] + rest
  {
    var h := HyphenateUpper(s);
    HyphenateNextWord(s, capital, rest);
    LowerAllConcat(h, ['-', capital] + rest);
    LowerAllOfWord(capital, rest);
    var x, y := LowerAll(h), ['-', Lower(capital)];
    assert "--fp-" + (x + (y + rest)) == ("--fp-" + x) + y + rest;
  }

  /** A two-word camelCase key becomes two hyphen-joined lower-case words. */
  lemma RuleOfTwoWords(first: string, capital: char, rest: string)
    requires NoUpper(first) && IsUpper(capital) && NoUpper(rest)
    ensures CssVarRule(first + [capital] + rest) == "--fp-" + first + ['-', Lower(capital)] + rest
  {
    RuleOfLowerWord(first);
    RuleOfNextWord(first, capital, rest);
  }

  /** A key whose rule form is known, given as the words of its camelCase spelling. */
  lemma RuleOfKey(key: string, first: string, capital: char, rest: string, cssVar: string)
    requires NoUpper(first) && IsUpper(capital) && NoUpper(rest)
    requires key == first + [capital] + rest
    requires cssVar == "--fp-" + first + ['-', Lower(capital)] + rest
    ensures CssVarRule(key) == cssVar
  {
    RuleOfTwoWords(first, capital, rest);
  }

  /** The three-word form of RuleOfKey. */
  lemma RuleOfThreeWordKey(key: string, first: string, c1: char, mid: string, c2: char, rest: string,
                           cssVar: string)
    requires NoUpper(first) && IsUpper(c1) && NoUpper(mid) && IsUpper(c2) && NoUpper(rest)
    requires key == first + [c1] + mid + [c2] + rest
    requires cssVar == "--fp-" + first + ['-', Lower(c1)] + mid + ['-', Lower(c2)] + rest
    ensures CssVarRule(key) == cssVar
  {
    RuleOfTwoWords(first, c1, mid);
    RuleOfNextWord(first + [c1] + mid, c2, rest);
  }

  // One lemma per table entry keeps each literal computation in its own proof context.
  lemma EntryFollowsRule0()
    ensures CssVarMappings[0].1 == CssVarRule(CssVarMappings[0].0)
  {
    var (key, cssVar) := CssVarMappings[0];
    var first, rest := "primary", "olor";
    assert key == first + ['C'] + rest;
    assert cssVar == "--fp-" + first + ['-', 'c'] + rest;
    RuleOfKey(key, first, 'C', rest, cssVar);
  }

  lemma EntryFollowsRule1()
    ensures CssVarMappings[1].1 == CssVarRule(CssVarMappings[1].0)
  {
    var (key, cssVar) := CssVarMappings[1];
    var first, rest := "background", "olor";
    assert key == first + ['C'] + rest;
    assert cssVar == "--fp-" + first + ['-', 'c'] + rest;
    RuleOfKey(key, first, 'C', rest, cssVar);
  }

  lemma EntryFollowsRule2()
    ensures CssVarMappings[2].1 == CssVarRule(CssVarMappings[2].0)
  {
    var (key, cssVar) := CssVarMappings[2];
    var first, mid, rest := "secondary", "ackground", "olor";
    Entry2Spelled(first, mid, rest);
    RuleOfThreeWordKey(key, first, 'B', mid, 'C', rest, cssVar);
  }

  lemma Entry2Spelled(first: string, mid: string, rest: string)
    requires first == "secondary" && mid == "ackground" && rest == "olor"
    ensures CssVarMappings[2].0 == first + ['B'] + mid + ['C'] + rest
    ensures CssVarMappings[2].1 == "--fp-" + first + ['-', 'b'] + mid + ['-', 'c'] + rest
  {
    Entry2KeySpelled(first, mid, rest);
  }

  lemma Entry2KeySpelled(first: string, mid: string, rest: string)
    requires first == "secondary" && mid == "ackground" && rest == "olor"
    ensures CssVarMappings[2].0 == first + ['B'] + mid + ['C'] + rest
  {
  }

  lemma EntryFollowsRule3()
    ensures CssVarMappings[3].1 == CssVarRule(CssVarMappings[3].0)
  {
    var (key, cssVar) := CssVarMappings[3];
    var first, rest := "text", "olor";
    assert key == first + ['C'] + rest;
    assert cssVar == "--fp-" + first + ['-', 'c'] + rest;
    RuleOfKey(key, first, 'C', rest, cssVar);
  }

  lemma EntryFollowsRule4()
    ensures CssVarMappings[4].1 == CssVarRule(CssVarMappings[4].0)
  {
    var (key, cssVar) := CssVarMappings[4];
    var first, rest := "border", "olor";
    assert key == first + ['C'] + rest;
    assert cssVar == "--fp-" + first + ['-', 'c'] + rest;
    RuleOfKey(key, first, 'C', rest, cssVar);
  }

  lemma EntryFollowsRule5()
    ensures CssVarMappings[5].1 == CssVarRule(CssVarMappings[5].0)
  {
    var (key, cssVar) := CssVarMappings[5];
    var first, rest := "font", "amily";
    assert key == first + ['F'] + rest;
    assert cssVar == "--fp-" + first + ['-', 'f'] + rest;
    RuleOfKey(key, first, 'F', rest, cssVar);
  }

  lemma EntryFollowsRule6()
    ensures CssVarMappings[6].1 == CssVarRule(CssVarMappings[6].0)
  {
    var (key, cssVar) := CssVarMappings[6];
    var first, rest := "base", "adius";
    assert key == first + ['R'] + rest;
    assert cssVar == "--fp-" + first + ['-', 'r'] + rest;
    RuleOfKey(key, first, 'R', rest, cssVar);
  }

  lemma EntryFollowsRule7()
    ensures CssVarMappings[7].1 == CssVarRule(CssVarMappings[7].0)
  {
    var (key, cssVar) := CssVarMappings[7];
    RuleOfLowerWord(key);
    assert cssVar == "--fp-" + key;
  }

  lemma MappingsFollowRule()
    ensures forall i :: 0 <= i < |CssVarMappings| ==> CssVarMappings[i].1 == CssVarRule(CssVarMappings[i].0)
  {
    forall i | 0 <= i < |CssVarMappings|
      ensures CssVarMappings[i].1 == CssVarRule(CssVarMappings[i].0)
    {
      if i == 0 { EntryFollowsRule0(); }
      else if i == 1 { EntryFollowsRule1(); }
      else if i == 2 { EntryFollowsRule2(); }
      else if i == 3 { EntryFollowsRule3(); }
      else if i == 4 { EntryFollowsRule4(); }
      else if i == 5 { EntryFollowsRule5(); }
      else if i == 6 { EntryFollowsRule6(); }
      else { EntryFollowsRule7(); }
    }
  }

  /**
   * `convertToCssVar(key)`: the table entry of a mapped key, the generic rule
   * otherwise. Since every table entry follows the rule, the result is the rule's.
   */
  function ConvertToCssVar(key: string): (r: string)
    ensures r == CssVarRule(key)
    ensures |r| >= 5 && r[..5] == "--fp-" && NoUpper(r)
  {
    match Get(CssVarMappings, key)
    case Some(v) =>
      MappingsFollowRule();
      v
    case None => CssVarRule(key)
  }

  /** A mapped key is converted to its table entry. */
  lemma ConvertMappedKey(i: nat)
    requires i < |CssVarMappings|
    ensures ConvertToCssVar(CssVarMappings[i].0) == CssVarMappings[i].1
  {
    MappingsFollowRule();
  }

  // ---------------------------------------------------------------------------
  // Lookup through the prototype chain (as written)
  // ---------------------------------------------------------------------------

  /** The properties every object literal inherits from `Object.prototype`. */
  const ObjectPrototypeMembers: seq<string> := [
    "constructor", "__defineGetter__", "__defineSetter__", "hasOwnProperty",
    "__lookupGetter__", "__lookupSetter__", "isPrototypeOf", "propertyIsEnumerable",
    "toString", "valueOf", "__proto__", "toLocaleString"
  ]

  /**
   * What `CSS_VAR_MAPPINGS[key] || rule(key)` yields: a CSS variable name, or an
   * inherited prototype member (a function, or `Object.prototype` itself), which is
   * truthy and so returned in place of the rule.
   */
  datatype CssVarLookup = CssVarName(name: string) | PrototypeMember(member: string)

  /** The lookup of `convertToCssVar` as written: a plain property read on the table. */
  function ConvertToCssVarAsWritten(key: string): (r: CssVarLookup)
    ensures r.PrototypeMember? <==> key in ObjectPrototypeMembers
    ensures r.CssVarName? ==> r.name == ConvertToCssVar(key)
  {
    match Get(CssVarMappings, key)
    case Some(v) =>
      MappingsFollowRule();
      assert key !in ObjectPrototypeMembers by { PrototypeMembersUnmapped(); }
      CssVarName(v)
    case None =>
      if key in ObjectPrototypeMembers then PrototypeMember(key) else CssVarName(CssVarRule(key))
  }

  lemma PrototypeMembersUnmapped()
    ensures forall k :: k in ObjectPrototypeMembers ==> !HasKey(CssVarMappings, k)
  {
    forall k | k in ObjectPrototypeMembers ensures !HasKey(CssVarMappings, k) {
      forall i | 0 <= i < |CssVarMappings| ensures CssVarMappings[i].0 != k {
        // no inherited member name is a theme key: their first three characters differ
        var t := CssVarMappings[i].0;
        assert (t[0], t[1], t[2]) in
          [('p', 'r', 'i'), ('b', 'a', 'c'), ('s', 'e', 'c'), ('t', 'e', 'x'), ('b', 'o', 'r'),
           ('f', 'o', 'n'), ('b', 'a', 's'), ('s', 'p', 'a')];
        assert (k[0], k[1], k[2]) in
          [('c', 'o', 'n'), ('_', '_', 'd'), ('h', 'a', 's'), ('_', '_', 'l'), ('i', 's', 'P'),
           ('p', 'r', 'o'), ('t', 'o', 'S'), ('v', 'a', 'l'), ('_', '_', 'p'), ('t', 'o', 'L')];
      }
    }
  }

  /** The key `constructor` is converted to the `Object` function, not a `--fp-` name. */
  lemma ConstructorKeyAsWritten(key: string)
    requires key == "constructor"
    ensures ConvertToCssVarAsWritten(key) == PrototypeMember(key)
    ensures ConvertToCssVar(key) == "--fp-" + key
  {
    assert key == ObjectPrototypeMembers[0];
    assert NoUpper(key);
    RuleOfLowerWord(key);
  }

  // ---------------------------------------------------------------------------
  // Hex colour -> rgba()
  // ---------------------------------------------------------------------------

  datatype Rgb = Rgb(red: int, green: int, blue: int)

  /** `s.split('').map(c => c + c).join('')`: every character twice. */
  function DoubleEach(s: string): (r: string)
    ensures |r| == 2 * |s|
    ensures forall c :: c in r <==> c in s
  {
    if s == [] then []
    else
      assert forall c :: c in s <==> c == s[0] || c in s[1..];
      [s[0], s[0]] + DoubleEach(s[1..])
  }

  /** The digits `hexToRgba` parses: the first `#` removed, a three-character form doubled. */
  function NormalizedHex(s: string): string
  {
    var h := RemoveFirst(s, '#');
    if |h| == 3 then DoubleEach(h) else h
  }

  /** `parseInt(h.substr(k, 2), 16)` for k = 0, 2, 4; NaN in any of them gives None. */
  function ParseHexColor(h: string): Option<Rgb>
    requires |h| == 6
  {
    var r, g, b := ParseIntHex([h[0], h[1]]), ParseIntHex([h[2], h[3]]), ParseIntHex([h[4], h[5]]);
    if r.Some? && g.Some? && b.Some? then Some(Rgb(r.value, g.value, b.value)) else None
  }

  /** The template `rgba(${r}, ${g}, ${b}, ${alpha})`. */
  function RgbaText(c: Rgb, alpha: string): string
  {
    "rgba(" + IntToString(c.red) + ", " + IntToString(c.green) + ", " + IntToString(c.blue) + ", "
    + alpha + ")"
  }

  /**
   * `hexToRgba(hex, alpha)`; None stands for `null`. JavaScript measures, splits and
   * slices the string in UTF-16 code units, so a character outside the BMP always
   * ends in `null`. With three units, the doubled form has a pair of equal
   * surrogates. With six units, some pair starts with a surrogate. Either way
   * `parseInt` reads no digit. Such strings are rejected first; for the others,
   * characters and code units coincide.
   */
  function HexToRgba(hex: Value, alpha: string): (r: Option<string>)
    ensures !Truthy(hex) || !hex.Str? ==> r == None
    ensures hex.Str? && Utf16Length(RemoveFirst(hex.s, '#')) != 3 && Utf16Length(RemoveFirst(hex.s, '#')) != 6 ==>
      r == None
    ensures hex.Str? && !AllBmp(RemoveFirst(hex.s, '#')) ==> r == None
  {
    if !Truthy(hex) || !hex.Str? || !AllBmp(RemoveFirst(hex.s, '#')) then None
    else
      var h := NormalizedHex(hex.s);
      if |h| != 6 then None
      else
        match ParseHexColor(h)
        case Some(c) => Some(RgbaText(c, alpha))
        case None => None
  }

  /** Doubling every character keeps the string inside the BMP, or outside it. */
  lemma DoubleEachBmp(s: string)
    ensures AllBmp(DoubleEach(s)) <==> AllBmp(s)
  {
    var d := DoubleEach(s);
    assert AllBmp(d) <==> forall c :: c in d ==> IsBmp(c);
    assert AllBmp(s) <==> forall c :: c in s ==> IsBmp(c);
  }

  lemma RemoveLeadingHash(t: string)
    ensures RemoveFirst("#" + t, '#') == t
  {
    assert ("#" + t)[1..] == t;
  }

  /** `hexToRgba` on a string depends only on its normalised digits. */
  function HexDigitsToRgba(h: string, alpha: string): Option<string>
  {
    if |h| != 6 then None
    else
      match ParseHexColor(h)
      case Some(c) => Some(RgbaText(c, alpha))
      case None => None
  }

  lemma HexToRgbaOfString(s: string, alpha: string)
    requires s != ""
    ensures HexToRgba(Str(s), alpha)
      == if AllBmp(RemoveFirst(s, '#')) then HexDigitsToRgba(NormalizedHex(s), alpha) else None
  {
  }

  /** A three-character colour reads as its doubled six-character form, with or without `#`. */
  lemma ShortFormMatchesLongForm(t: string, alpha: string)
    requires |t| == 3
    ensures HexToRgba(Str(t), alpha) == HexToRgba(Str(DoubleEach(t)), alpha)
    ensures HexToRgba(Str("#" + t), alpha) == HexToRgba(Str("#" + DoubleEach(t)), alpha)
  {
    var d := DoubleEach(t);
    HexToRgbaOfString(t, alpha);
    HexToRgbaOfString(d, alpha);
    HexToRgbaOfString("#" + t, alpha);
    HexToRgbaOfString("#" + d, alpha);
    RemoveLeadingHash(t);
    RemoveLeadingHash(d);
    assert NormalizedHex("#" + t) == d;
    assert NormalizedHex("#" + d) == d;
    DoubleEachBmp(t);
    if '#' in t {
      assert |NormalizedHex(t)| == 2;
      assert |NormalizedHex(d)| == 5;
    } else {
      assert '#' !in d;
      assert RemoveFirst(t, '#') == t && RemoveFirst(d, '#') == d;
      assert NormalizedHex(t) == d;
      assert NormalizedHex(d) == d;
    }
  }

  /**
   * Six hexadecimal digits parse to three components in 0..255 whose two-digit
   * encodings give back the digits (in lower case), with or without a leading `#`.
   */
  lemma SixDigitRoundTrip(t: string, alpha: string)
    requires |t| == 6 && forall i :: 0 <= i < 6 ==> IsHexDigit(t[i])
    ensures ParseHexColor(t).Some?
    ensures var c := ParseHexColor(t).value;
      && 0 <= c.red < 256 && 0 <= c.green < 256 && 0 <= c.blue < 256
      && Hex2(c.red) + Hex2(c.green) + Hex2(c.blue) == LowerAll(t)
      && HexToRgba(Str(t), alpha) == Some(RgbaText(c, alpha))
      && HexToRgba(Str("#" + t), alpha) == Some(RgbaText(c, alpha))
  {
    ParseSixDigits(t);
    ReencodeSixDigits(t);
    SixDigitsToRgba(t, alpha);
  }

  /** Six hexadecimal digits, with or without `#`, reach the parse unchanged. */
  lemma SixDigitsToRgba(t: string, alpha: string)
    requires |t| == 6 && forall i :: 0 <= i < 6 ==> IsHexDigit(t[i])
    ensures HexToRgba(Str(t), alpha) == HexDigitsToRgba(t, alpha)
    ensures HexToRgba(Str("#" + t), alpha) == HexDigitsToRgba(t, alpha)
  {
    assert '#' !in t;
    RemoveLeadingHash(t);
    assert NormalizedHex(t) == t;
    assert NormalizedHex("#" + t) == t;
    assert AllBmp(t);
    HexToRgbaOfString(t, alpha);
    HexToRgbaOfString("#" + t, alpha);
  }

  lemma ParseSixDigits(t: string)
    requires |t| == 6 && forall i :: 0 <= i < 6 ==> IsHexDigit(t[i])
    ensures ParseHexColor(t) == Some(Rgb(ByteValue(t[0], t[1]), ByteValue(t[2], t[3]), ByteValue(t[4], t[5])))
  {
    ParsePair(t[0], t[1]);
    ParsePair(t[2], t[3]);
    ParsePair(t[4], t[5]);
  }

  lemma ParsePair(hi: char, lo: char)
    requires IsHexDigit(hi) && IsHexDigit(lo)
    ensures ParseIntHex([hi, lo]) == Some(ByteValue(hi, lo))
  {
    var s := [hi, lo];
    ParseTwoHexDigits(s);
  }

  lemma ReencodeSixDigits(t: string)
    requires |t| == 6 && forall i :: 0 <= i < 6 ==> IsHexDigit(t[i])
    ensures Hex2(ByteValue(t[0], t[1])) + Hex2(ByteValue(t[2], t[3])) + Hex2(ByteValue(t[4], t[5]))
            == LowerAll(t)
  {
    ByteOfDigits(t[0], t[1]);
    ByteOfDigits(t[2], t[3]);
    ByteOfDigits(t[4], t[5]);
    var low := LowerAll(t);
    assert low == [Lower(t[0]), Lower(t[1])] + [Lower(t[2]), Lower(t[3])] + [Lower(t[4]), Lower(t[5])];
  }

  /** Two digits read as a byte re-encode to the same digits in lower case. */
  lemma ByteOfDigits(a: char, b: char)
    requires IsHexDigit(a) && IsHexDigit(b)
    ensures Hex2(ByteValue(a, b)) == [Lower(a), Lower(b)]
  {
    var v := HexDigitValue(a) * 16 + HexDigitValue(b);
    assert v / 16 == HexDigitValue(a) && v % 16 == HexDigitValue(b);
    HexCharOfValue(a);
    HexCharOfValue(b);
  }

  /** A six-digit colour with a leading `#` gives the rgba text of its three bytes. */
  lemma RgbaOfHashColour(t: string, alpha: string, c: Rgb)
    requires |t| == 6 && forall i :: 0 <= i < 6 ==> IsHexDigit(t[i])
    requires c == Rgb(ByteValue(t[0], t[1]), ByteValue(t[2], t[3]), ByteValue(t[4], t[5]))
    ensures HexToRgba(Str("#" + t), alpha) == Some(RgbaText(c, alpha))
  {
    SixDigitRoundTrip(t, alpha);
    ParseSixDigits(t);
  }

  // ---------------------------------------------------------------------------
  // Declarations: buildThemeCSS and getDarkThemeCSS
  // ---------------------------------------------------------------------------

  /** One declaration `property: value;`, the value as the JavaScript value interpolated. */
  datatype Decl = Decl(property: string, value: Value)

  /** The two lists `buildThemeCSS` returns (joined into text in the source). */
  datatype ThemeCss = ThemeCss(cssVars: seq<Decl>, derivedVars: seq<Decl>)

  /** `Object.entries(table).map(([k, v]) => `${k}: ${v};`)` for a table of strings. */
  function DeclsOf(table: Entries<string>): (r: seq<Decl>)
    ensures |r| == |table|
    ensures forall i :: 0 <= i < |table| ==> r[i] == Decl(table[i].0, Str(table[i].1))
  {
    seq(|table|, i requires 0 <= i < |table| => Decl(table[i].0, Str(table[i].1)))
  }

  /** The tints derived from a primary colour: hover, then focus, each only when it parses. */
  function TintDecls(color: Value): seq<Decl>
  {
    TintDecl(HoverVar, HexToRgba(color, HoverAlpha)) + TintDecl(FocusVar, HexToRgba(color, FocusAlpha))
  }

  /** The declaration of one tint variable, when its colour parsed. */
  function TintDecl(name: string, rgba: Option<string>): seq<Decl>
  {
    match rgba
    case Some(c) => [Decl(name, Str(c))]
    case None => []
  }

  /** Whether a colour parses does not depend on the alpha it is printed with. */
  lemma HexToRgbaParsesForAnyAlpha(color: Value, a: string, b: string)
    ensures HexToRgba(color, a).Some? <==> HexToRgba(color, b).Some?
  {
  }

  /** Both tints are derived, or neither. */
  lemma TintsBothOrNeither(color: Value)
    ensures TintDecls(color) == [] <==> HexToRgba(color, HoverAlpha).None?
    ensures TintDecls(color) != [] ==>
      TintDecls(color) == [Decl(HoverVar, Str(HexToRgba(color, HoverAlpha).value)),
                           Decl(FocusVar, Str(HexToRgba(color, FocusAlpha).value))]
  {
    HexToRgbaParsesForAnyAlpha(color, HoverAlpha, FocusAlpha);
  }

  /** The declaration one entry adds to `cssVars`: none for `base`. */
  function EntryVarDecls(e: (string, Value)): seq<Decl>
  {
    if e.0 == BaseKey then [] else [Decl(ConvertToCssVar(e.0), e.1)]
  }

  /** The declarations one entry adds to `derivedVars`: the tints of `primaryColor`. */
  function EntryDerivedDecls(e: (string, Value)): seq<Decl>
  {
    if e.0 == PrimaryColorKey then TintDecls(e.1) else []
  }

  /** The `cssVars` list after the entries `es` have been visited in order. */
  function VarDecls(es: Entries<Value>): seq<Decl>
  {
    if es == [] then [] else VarDecls(es[..|es| - 1]) + EntryVarDecls(es[|es| - 1])
  }

  /** The `derivedVars` list after the entries `es` have been visited in order. */
  function DerivedDecls(es: Entries<Value>): seq<Decl>
  {
    if es == [] then [] else DerivedDecls(es[..|es| - 1]) + EntryDerivedDecls(es[|es| - 1])
  }

  /** The entries other than `base`, in order. */
  function NonBaseEntries(es: Entries<Value>): (r: Entries<Value>)
    ensures forall i :: 0 <= i < |r| ==> r[i].0 != BaseKey && r[i] in es
    ensures forall e :: e in es && e.0 != BaseKey ==> e in r
  {
    if es == [] then []
    else
      var init, last := es[..|es| - 1], es[|es| - 1];
      assert forall e :: e in es <==> e in init || e == last;
      NonBaseEntries(init) + (if last.0 == BaseKey then [] else [last])
  }

  /**
   * `cssVars` holds exactly one declaration per entry other than `base`, in entry
   * order: the entry's CSS variable with the entry's value.
   */
  lemma {:induction false} VarDeclsOnePerEntry(es: Entries<Value>)
    ensures |VarDecls(es)| == |NonBaseEntries(es)|
    ensures forall i :: 0 <= i < |VarDecls(es)| ==>
      VarDecls(es)[i] == Decl(ConvertToCssVar(NonBaseEntries(es)[i].0), NonBaseEntries(es)[i].1)
  {
    if es != [] {
      VarDeclsOnePerEntry(es[..|es| - 1]);
    }
  }

  /**
   * In a theme without repeated keys, `derivedVars` holds the tints of the
   * `primaryColor` value, and nothing when there is none.
   */
  lemma {:induction false} DerivedOnlyFromPrimaryColor(es: Entries<Value>)
    requires DistinctKeys(es)
    ensures DerivedDecls(es) == match Get(es, PrimaryColorKey) case Some(v) => TintDecls(v) case None => []
  {
    if es != [] {
      var init, last := es[..|es| - 1], es[|es| - 1];
      assert es == init + [last];
      assert DistinctKeys(init);
      DerivedOnlyFromPrimaryColor(init);
      GetAppend(init, [last], PrimaryColorKey);
      if last.0 == PrimaryColorKey {
        assert !HasKey(init, PrimaryColorKey);
      }
    }
  }

  /** The declaration lists `buildThemeCSS` produces for a theme. */
  function ThemeCssOf(theme: Value): ThemeCss
  {
    ThemeCss(VarDecls(ObjectEntries(theme)), DerivedDecls(ObjectEntries(theme)))
  }

  /** Visiting one more entry extends both lists by that entry's declarations. */
  lemma DeclsOfLongerPrefix(es: Entries<Value>, i: nat)
    requires i < |es|
    ensures VarDecls(es[..i + 1]) == VarDecls(es[..i]) + EntryVarDecls(es[i])
    ensures DerivedDecls(es[..i + 1]) == DerivedDecls(es[..i]) + EntryDerivedDecls(es[i])
  {
    var prefix := es[..i + 1];
    assert prefix[..i] == es[..i] && prefix[i] == es[i];
  }

  /** `buildThemeCSS(theme)`: one pass over `Object.entries(theme)`. */
  method BuildThemeCSS(theme: Value) returns (css: ThemeCss)
    requires !Nullish(theme)
    ensures css == ThemeCssOf(theme)
  {
    var entries := ObjectEntries(theme);
    var cssVars: seq<Decl> := [];
    var derivedVars: seq<Decl> := [];
    for i := 0 to |entries|
      invariant cssVars == VarDecls(entries[..i])
      invariant derivedVars == DerivedDecls(entries[..i])
    {
      DeclsOfLongerPrefix(entries, i);
      cssVars, derivedVars := VisitThemeEntry(entries[i], cssVars, derivedVars);
    }
    assert entries[..|entries|] == entries;
    css := ThemeCss(cssVars, derivedVars);
  }

  /** The `forEach` callback of `buildThemeCSS`: the pushes one entry makes. */
  method VisitThemeEntry(entry: (string, Value), cssVars: seq<Decl>, derivedVars: seq<Decl>)
    returns (cssVars': seq<Decl>, derivedVars': seq<Decl>)
    ensures cssVars' == cssVars + EntryVarDecls(entry)
    ensures derivedVars' == derivedVars + EntryDerivedDecls(entry)
  {
    var (key, value) := entry;
    cssVars', derivedVars' := cssVars, derivedVars;
    var cssVar := ConvertToCssVar(key);
    if key != BaseKey {
      cssVars' := cssVars' + [Decl(cssVar, value)];
      if key == PrimaryColorKey {
        derivedVars' := PushTints(value, derivedVars');
      }
    }
  }

  /** The tint pushes for a `primaryColor` value: hover, then focus, each when it parses. */
  method PushTints(value: Value, derivedVars: seq<Decl>) returns (derivedVars': seq<Decl>)
    ensures derivedVars' == derivedVars + TintDecls(value)
  {
    var hoverColor := HexToRgba(value, HoverAlpha);
    var focusColor := HexToRgba(value, FocusAlpha);
    var hover, focus := TintDecl(HoverVar, hoverColor), TintDecl(FocusVar, focusColor);
    derivedVars' := derivedVars;
    if hoverColor.Some? {
      derivedVars' := derivedVars' + [Decl(HoverVar, Str(hoverColor.value))];
    }
    assert derivedVars' == derivedVars + hover;
    if focusColor.Some? {
      derivedVars' := derivedVars' + [Decl(FocusVar, Str(focusColor.value))];
    }
    assert derivedVars' == derivedVars + hover + focus;
  }

  /** `getDarkThemeCSS()`: the dark overrides as declarations, in table order. */
  function DarkThemeDecls(): (r: seq<Decl>)
    ensures |r| == |DarkThemeOverrides|
  {
    DeclsOf(DarkThemeOverrides)
  }

  /** Every dark override replaces a variable that has a default, the default of a theme key. */
  lemma DarkOverridesHaveDefaults()
    ensures forall i :: 0 <= i < |DarkThemeDecls()| ==>
      HasKey(DefaultThemeValues, DarkThemeDecls()[i].property)
      && exists j :: 0 <= j < |CssVarMappings| && CssVarMappings[j].1 == DarkThemeDecls()[i].property
  {
    var d := DarkThemeDecls();
    assert d[0].property == DefaultThemeValues[1].0 == CssVarMappings[1].1;
    assert d[1].property == DefaultThemeValues[2].0 == CssVarMappings[2].1;
    assert d[2].property == DefaultThemeValues[3].0 == CssVarMappings[3].1;
    assert d[3].property == DefaultThemeValues[4].0 == CssVarMappings[4].1;
  }

  // ---------------------------------------------------------------------------
  // buildShadowDOMThemeCSS and the cascade inside one block
  // ---------------------------------------------------------------------------

  /** A rule `selector { declarations }`. */
  datatype Rule = Rule(selector: string, decls: seq<Decl>)

  /** The declarations that apply the variables to the container itself. */
  const ContainerApplicationDecls: seq<Decl> := [
    Decl("background", Str("var(--fp-background-color, #FFFFFF)")),
    Decl("color", Str("var(--fp-text-color, #262730)")),
    Decl("border-radius", Str("var(--fp-base-radius, 0.5rem)"))
  ]

  /** The rules after the container block; they do not depend on the theme. */
  const ComponentRules: seq<Rule> := [
    Rule(".fp-btn", [
      Decl("border-color", Str("var(--fp-border-color, #E6EBF5)")),
      Decl("color", Str("var(--fp-text-color, #262730)"))]),
    Rule(".fp-btn:hover", [
      Decl("background", Str("var(--fp-hover-color, rgba(255, 75, 75, 0.1))")),
      Decl("border-color", Str("var(--fp-primary-color, #FF4B4B)"))]),
    Rule(".fp-section", [
      Decl("background", Str("var(--fp-secondary-background-color, #F0F2F6)")),
      Decl("color", Str("var(--fp-text-color, #262730)"))])
  ]

  /** `theme.base === 'dark'`. */
  predicate IsDark(theme: Value)
  {
    GetProp(theme, BaseKey) == Str("dark")
  }

  /** The default declarations, followed by the dark overrides in dark mode. */
  function DefaultDecls(dark: bool): seq<Decl>
  {
    DeclsOf(DefaultThemeValues) + (if dark then DarkThemeDecls() else [])
  }

  /**
   * The container block as the source writes it: theme variables, tints, the
   * application declarations, then the defaults and the dark overrides.
   */
  function ContainerDeclsAsWritten(css: ThemeCss, dark: bool): seq<Decl>
  {
    css.cssVars + css.derivedVars + ContainerApplicationDecls + DefaultDecls(dark)
  }

  /** The container block with the defaults first, so that the theme overrides them. */
  function ContainerDecls(css: ThemeCss, dark: bool): seq<Decl>
  {
    ContainerBlock(DefaultDecls(dark), css)
  }

  /** A container block that starts with the given fallback declarations. */
  function ContainerBlock(defaults: seq<Decl>, css: ThemeCss): seq<Decl>
  {
    defaults + (css.cssVars + css.derivedVars) + ContainerApplicationDecls
  }

  /** `buildShadowDOMThemeCSS(theme, containerSelector)` as written. */
  method BuildShadowDOMThemeCSSAsWritten(theme: Value, containerSelector: string) returns (rules: seq<Rule>)
    requires !Nullish(theme)
    ensures rules == [Rule(containerSelector, ContainerDeclsAsWritten(ThemeCssOf(theme), IsDark(theme)))]
                     + ComponentRules
  {
    var themeCSS := BuildThemeCSS(theme);
    var dark := IsDark(theme);
    rules := [Rule(containerSelector, ContainerDeclsAsWritten(themeCSS, dark))] + ComponentRules;
  }

  /** `buildShadowDOMThemeCSS(theme, containerSelector)` with the defaults placed first. */
  method BuildShadowDOMThemeCSS(theme: Value, containerSelector: string) returns (rules: seq<Rule>)
    requires !Nullish(theme)
    ensures rules == [Rule(containerSelector, ContainerDecls(ThemeCssOf(theme), IsDark(theme)))] + ComponentRules
  {
    var themeCSS := BuildThemeCSS(theme);
    var dark := IsDark(theme);
    rules := [Rule(containerSelector, ContainerDecls(themeCSS, dark))] + ComponentRules;
  }

  /** The value a block gives a property: its last declaration of the property wins. */
  function EffectiveValue(decls: seq<Decl>, property: string): (r: Option<Value>)
    ensures r.None? <==> forall i :: 0 <= i < |decls| ==> decls[i].property != property
    ensures r.Some? ==> Decl(property, r.value) in decls
  {
    if decls == [] then None
    else if decls[|decls| - 1].property == property then Some(decls[|decls| - 1].value)
    else EffectiveValue(decls[..|decls| - 1], property)
  }

  /** In a block made of two parts, the second part's declaration of a property wins. */
  lemma {:induction false} EffectiveValueAppend(a: seq<Decl>, b: seq<Decl>, property: string)
    ensures EffectiveValue(a + b, property)
            == if EffectiveValue(b, property).Some? then EffectiveValue(b, property) else EffectiveValue(a, property)
  {
    if b == [] {
      assert a + b == a;
    } else {
      assert (a + b)[..|a + b| - 1] == a + b[..|b| - 1];
      EffectiveValueAppend(a, b[..|b| - 1], property);
    }
  }

  /** The declaration at `i` is the one that wins when no later one names the property. */
  lemma {:induction false} EffectiveValueAt(decls: seq<Decl>, i: nat, property: string)
    requires i < |decls| && decls[i].property == property
    requires forall j :: i < j < |decls| ==> decls[j].property != property
    ensures EffectiveValue(decls, property) == Some(decls[i].value)
  {
    if i < |decls| - 1 {
      EffectiveValueAt(decls[..|decls| - 1], i, property);
    }
  }

  /** A custom property (`--name`) is never one of the container's application declarations. */
  lemma ApplicationDeclsNotCustom(property: string)
    requires |property| > 0 && property[0] == '-'
    ensures forall i :: 0 <= i < |ContainerApplicationDecls| ==> ContainerApplicationDecls[i].property != property
  {
    var d := ContainerApplicationDecls;
    assert d[0].property[0] == 'b' && d[1].property[0] == 'c' && d[2].property[0] == 'b';
  }

  /** Every variable with a default gets a value from the default declarations. */
  lemma DefaultsCover(dark: bool, property: string)
    requires HasKey(DefaultThemeValues, property)
    ensures EffectiveValue(DefaultDecls(dark), property).Some?
  {
    var i :| 0 <= i < |DefaultThemeValues| && DefaultThemeValues[i].0 == property;
    assert DeclsOf(DefaultThemeValues)[i].property == property;
    EffectiveValueAppend(DeclsOf(DefaultThemeValues), if dark then DarkThemeDecls() else [], property);
  }

  /**
   * As written, the defaults come last in the container block, so every variable that
   * has a default keeps its default (or dark override) whatever the theme declares.
   */
  lemma DefaultsOverrideThemeAsWritten(css: ThemeCss, dark: bool, property: string)
    requires HasKey(DefaultThemeValues, property)
    ensures EffectiveValue(ContainerDeclsAsWritten(css, dark), property) == EffectiveValue(DefaultDecls(dark), property)
  {
    DefaultsCover(dark, property);
    EffectiveValueAppend(css.cssVars + css.derivedVars + ContainerApplicationDecls, DefaultDecls(dark), property);
  }

  /**
   * With the defaults first, a variable the theme declares (directly or as a tint)
   * takes the theme's value, and any other custom property keeps its default.
   */
  lemma ThemeOverridesDefaults(css: ThemeCss, dark: bool, property: string)
    requires |property| > 0 && property[0] == '-'
    ensures var fromTheme := EffectiveValue(css.cssVars + css.derivedVars, property);
      EffectiveValue(ContainerDecls(css, dark), property)
      == if fromTheme.Some? then fromTheme else EffectiveValue(DefaultDecls(dark), property)
  {
    ThemeOverridesFallbacks(DefaultDecls(dark), css, property);
  }

  /** Whatever fallbacks open the block, the theme's declarations of a custom property win over them. */
  lemma ThemeOverridesFallbacks(defaults: seq<Decl>, css: ThemeCss, property: string)
    requires |property| > 0 && property[0] == '-'
    ensures var fromTheme := EffectiveValue(css.cssVars + css.derivedVars, property);
      EffectiveValue(ContainerBlock(defaults, css), property)
      == if fromTheme.Some? then fromTheme else EffectiveValue(defaults, property)
  {
    ApplicationDeclsNotCustom(property);
    MiddleBlockWins(defaults, css.cssVars + css.derivedVars, ContainerApplicationDecls, property);
  }

  /** Three parts where the last one never declares the property: the middle one wins over the first. */
  lemma MiddleBlockWins(first: seq<Decl>, middle: seq<Decl>, last: seq<Decl>, property: string)
    requires forall i :: 0 <= i < |last| ==> last[i].property != property
    ensures var fromMiddle := EffectiveValue(middle, property);
      EffectiveValue(first + middle + last, property)
      == if fromMiddle.Some? then fromMiddle else EffectiveValue(first, property)
  {
    EffectiveValueAppend(first + middle, last, property);
    EffectiveValueAppend(first, middle, property);
  }

  /** The dark overrides are the last declarations of the block as written, exactly in dark mode. */
  lemma DarkOverridesLastAsWritten(css: ThemeCss, dark: bool)
    ensures var decls := ContainerDeclsAsWritten(css, dark);
      dark ==> |decls| >= 4 && decls[|decls| - 4..] == DarkThemeDecls()
    ensures var decls := ContainerDeclsAsWritten(css, dark);
      !dark ==> |decls| >= |DefaultThemeValues| && decls[|decls| - |DefaultThemeValues|..] == DeclsOf(DefaultThemeValues)
  {
  }

  // ---------------------------------------------------------------------------
  // isValidTheme and sanitizeTheme
  // ---------------------------------------------------------------------------

  /** Every valid key starts with a lower-case letter. */
  lemma ValidKeysStartWithLetter()
    ensures forall k :: k in ValidKeys ==> |k| > 0 && 'a' <= k[0] <= 'z'
  {
    var m := CssVarMappings;
    assert m[0].0[0] == 'p' && m[1].0[0] == 'b' && m[2].0[0] == 's' && m[3].0[0] == 't';
    assert m[4].0[0] == 'b' && m[5].0[0] == 'f' && m[6].0[0] == 'b' && m[7].0[0] == 's';
    assert BaseKey[0] == 'b';
  }

  /** A key that starts with a digit or a minus sign, as array indices do, is not valid. */
  lemma IndexKeyNotValid(key: string)
    requires |key| > 0 && (IsDigit(key[0]) || key[0] == '-')
    ensures key !in ValidKeys
  {
    ValidKeysStartWithLetter();
  }

  /** The keys `Object.keys` gives for an array are never valid theme keys. */
  lemma ArrayKeysNotValid(theme: Value)
    requires theme.Arr?
    ensures forall k :: k in Keys(ObjectEntries(theme)) ==> k !in ValidKeys
  {
    var keys := Keys(ObjectEntries(theme));
    forall k | k in keys
      ensures k !in ValidKeys
    {
      var i :| 0 <= i < |keys| && keys[i] == k;
      IndexKeyNotValid(IntToString(i));
    }
  }

  /** `isValidTheme(theme)`: exactly the objects that have at least one known key. */
  function IsValidTheme(theme: Value): (r: bool)
    ensures r <==> theme.Obj? && exists i :: 0 <= i < |theme.entries| && theme.entries[i].0 in ValidKeys
  {
    if !Truthy(theme) || !TypeofObject(theme) then false
    else
      var keys := Keys(ObjectEntries(theme));
      if theme.Arr? then
        ArrayKeysNotValid(theme);
        exists k :: k in keys && k in ValidKeys
      else
        exists k :: k in keys && k in ValidKeys
  }

  /** Whether `sanitizeTheme` keeps an entry: a known key whose value is not null or undefined. */
  predicate Kept(e: (string, Value))
  {
    e.0 in ValidKeys && !Nullish(e.1)
  }

  /** The entries that are kept, in their order: the reference for `sanitizeTheme`. */
  function KeptEntries(es: Entries<Value>): (r: Entries<Value>)
    ensures forall i :: 0 <= i < |r| ==> Kept(r[i]) && r[i] in es
    ensures forall e :: e in es && Kept(e) ==> e in r
  {
    if es == [] then []
    else
      var init, last := es[..|es| - 1], es[|es| - 1];
      assert forall e :: e in es <==> e in init || e == last;
      KeptEntries(init) + (if Kept(last) then [last] else [])
  }

  /**
   * The object the loop of `sanitizeTheme` has built after visiting `es`: each kept
   * entry is assigned with `sanitized[key] = value`.
   */
  function SanitizeLoop(es: Entries<Value>): (r: Entries<Value>)
    ensures DistinctKeys(r)
    ensures forall i :: 0 <= i < |r| ==> Kept(r[i])
  {
    if es == [] then []
    else
      var acc, last := SanitizeLoop(es[..|es| - 1]), es[|es| - 1];
      if Kept(last) then
        PutDistinct(acc, last.0, last.1);
        PutKeepsEntries(acc, last.0, last.1);
        Put(acc, last.0, last.1)
      else acc
  }

  /** Every entry after an assignment is an old entry or the assigned one. */
  lemma {:induction false} PutKeepsEntries<V>(d: Entries<V>, k: string, v: V)
    ensures forall i :: 0 <= i < |Put(d, k, v)| ==> Put(d, k, v)[i] in d || Put(d, k, v)[i] == (k, v)
  {
    if d != [] && d[0].0 != k {
      PutKeepsEntries(d[1..], k, v);
      assert forall e :: e in d[1..] ==> e in d;
    }
  }

  /** `sanitizeTheme(theme)` as a value: `{}` for an invalid theme. */
  function Sanitized(theme: Value): Entries<Value>
  {
    if IsValidTheme(theme) then SanitizeLoop(theme.entries) else []
  }

  /** `sanitizeTheme(theme)`. */
  method SanitizeTheme(theme: Value) returns (r: Value)
    ensures r == Obj(Sanitized(theme))
  {
    if !IsValidTheme(theme) {
      return Obj([]);
    }
    var sanitized: Entries<Value> := [];
    var entries := ObjectEntries(theme);
    for i := 0 to |entries|
      invariant sanitized == SanitizeLoop(entries[..i])
    {
      var (key, value) := entries[i];
      if key in ValidKeys && !Nullish(value) {
        sanitized := Put(sanitized, key, value);
      }
      assert entries[..i + 1][..i] == entries[..i];
    }
    assert entries[..|entries|] == entries;
    r := Obj(sanitized);
  }

  /** On an object without repeated keys, the assignments append: the loop filters. */
  lemma {:induction false} SanitizeLoopFilters(es: Entries<Value>)
    requires DistinctKeys(es)
    ensures SanitizeLoop(es) == KeptEntries(es)
  {
    if es != [] {
      var init, last := es[..|es| - 1], es[|es| - 1];
      assert DistinctKeys(init);
      SanitizeLoopFilters(init);
    }
  }

  /** A list whose entries are all kept is its own filter. */
  lemma {:induction false} KeptEntriesOfKept(es: Entries<Value>)
    requires forall i :: 0 <= i < |es| ==> Kept(es[i])
    ensures KeptEntries(es) == es
  {
    if es != [] {
      KeptEntriesOfKept(es[..|es| - 1]);
    }
  }

  /**
   * For a valid theme, `sanitizeTheme` keeps exactly the entries with a known key and
   * a value other than null or undefined, in order and with their values; otherwise
   * it gives `{}`.
   */
  lemma SanitizeKeepsExactly(theme: Value)
    requires theme.Obj? ==> DistinctKeys(theme.entries)
    ensures IsValidTheme(theme) ==> Sanitized(theme) == KeptEntries(theme.entries)
    ensures !IsValidTheme(theme) ==> Sanitized(theme) == []
  {
    if IsValidTheme(theme) {
      SanitizeLoopFilters(theme.entries);
    }
  }

  /** `sanitizeTheme(sanitizeTheme(t))` is `sanitizeTheme(t)`. */
  lemma SanitizeIdempotent(theme: Value)
    ensures Sanitized(Obj(Sanitized(theme))) == Sanitized(theme)
  {
    var s := Sanitized(theme);
    if s != [] {
      assert s[0].0 in ValidKeys;
      assert IsValidTheme(Obj(s));
      SanitizeLoopFilters(s);
      KeptEntriesOfKept(s);
    }
  }

  /** A sanitized theme is valid exactly when it is not empty; all its entries are kept ones. */
  lemma SanitizedValidIffNonEmpty(theme: Value)
    ensures IsValidTheme(Obj(Sanitized(theme))) <==> Sanitized(theme) != []
    ensures forall i :: 0 <= i < |Sanitized(theme)| ==> Kept(Sanitized(theme)[i])
  {
    var s := Sanitized(theme);
    if s != [] {
      assert s[0].0 in ValidKeys;
    }
  }

  // ---------------------------------------------------------------------------
  // applyThemeToElement
  // ---------------------------------------------------------------------------

  /**
   * `style.setProperty(name, value)` converts the value to a string, null to the empty
   * string, and removes the property when the result is empty: for null, `""`, `[]`
   * or `[null]`, but not for undefined, which prints as `undefined`.
   */
  predicate RemovesProperty(value: Value)
  {
    value.Null? || ToText(value) == ""
  }

  lemma RemovedValues()
    ensures RemovesProperty(Str("")) && RemovesProperty(Arr([])) && RemovesProperty(Arr([Null]))
    ensures !RemovesProperty(Undefined) && !RemovesProperty(Num(0)) && !RemovesProperty(Obj([]))
    ensures !RemovesProperty(Arr([Null, Undefined]))
  {
    assert ToText(Arr([Null, Undefined])) == "" + "," + "";
  }

  /** An inline style after `style.setProperty(name, value)`. */
  function SetStyle(style: Entries<Value>, name: string, value: Value): (r: Entries<Value>)
    ensures Get(r, name) == if RemovesProperty(value) then None else Some(value)
    ensures forall other :: other != name ==> Get(r, other) == Get(style, other)
  {
    if RemovesProperty(value) then Remove(style, name) else Put(style, name, value)
  }

  /** An inline style after setting each declaration in turn. */
  function ApplyDecls(style: Entries<Value>, decls: seq<Decl>): Entries<Value>
  {
    if decls == [] then style
    else
      var last := decls[|decls| - 1];
      SetStyle(ApplyDecls(style, decls[..|decls| - 1]), last.property, last.value)
  }

  lemma {:induction false} ApplyDeclsAppend(style: Entries<Value>, a: seq<Decl>, b: seq<Decl>)
    ensures ApplyDecls(style, a + b) == ApplyDecls(ApplyDecls(style, a), b)
  {
    if b == [] {
      assert a + b == a;
    } else {
      assert (a + b)[..|a + b| - 1] == a + b[..|b| - 1];
      ApplyDeclsAppend(style, a, b[..|b| - 1]);
    }
  }

  /**
   * After the declarations are set, a property has the value of its last declaration
   * (none when that value removes it), and keeps its old value when it is not declared.
   */
  lemma {:induction false} ApplyDeclsGet(style: Entries<Value>, decls: seq<Decl>, name: string)
    ensures Get(ApplyDecls(style, decls), name)
      == match EffectiveValue(decls, name)
         case None => Get(style, name)
         case Some(v) => if RemovesProperty(v) then None else Some(v)
  {
    if decls != [] {
      ApplyDeclsGet(style, decls[..|decls| - 1], name);
    }
  }

  /** The `setProperty` calls of `applyThemeToElement` for the entries `es`, in order. */
  function StyleWrites(es: Entries<Value>): seq<Decl>
  {
    if es == [] then []
    else StyleWrites(es[..|es| - 1]) + (EntryVarDecls(es[|es| - 1]) + EntryDerivedDecls(es[|es| - 1]))
  }

  /**
   * The element receives the same declarations as the block `buildThemeCSS` builds,
   * each entry's variable followed by its tints instead of all variables first.
   */
  lemma {:induction false} StyleWritesAreThemeDecls(es: Entries<Value>)
    ensures multiset(StyleWrites(es)) == multiset(VarDecls(es) + DerivedDecls(es))
  {
    if es != [] {
      StyleWritesAreThemeDecls(es[..|es| - 1]);
    }
  }

  lemma StyleWritesOfLongerPrefix(es: Entries<Value>, i: nat)
    requires i < |es|
    ensures StyleWrites(es[..i + 1]) == StyleWrites(es[..i]) + (EntryVarDecls(es[i]) + EntryDerivedDecls(es[i]))
  {
    var prefix := es[..i + 1];
    assert prefix[..i] == es[..i] && prefix[i] == es[i];
  }

  /** A DOM element as `applyThemeToElement` sees it: its inline style and its attributes. */
  class StyledElement {
    var style: Entries<Value>
    var attributes: Entries<Value>

    constructor(style: Entries<Value>, attributes: Entries<Value>)
      ensures this.style == style && this.attributes == attributes
    {
      this.style := style;
      this.attributes := attributes;
    }

    /** `element.style.setProperty(name, value)`. */
    method SetProperty(name: string, value: Value)
      modifies this
      ensures style == SetStyle(old(style), name, value) && attributes == old(attributes)
    {
      style := SetStyle(style, name, value);
    }

    /** `element.setAttribute(name, value)`. */
    method SetAttribute(name: string, value: Value)
      modifies this
      ensures attributes == Put(old(attributes), name, value) && style == old(style)
    {
      attributes := Put(attributes, name, value);
    }
  }

  /**
   * `const { setDataTheme = true } = options`, `options` defaulting to `{}` when
   * undefined: the option's value, true when it is undefined.
   */
  function SetDataThemeOption(options: Value): (r: Value)
    ensures GetProp(options, "setDataTheme").Undefined? ==> r == Bool(true)
    ensures !GetProp(options, "setDataTheme").Undefined? ==> r == GetProp(options, "setDataTheme")
  {
    var v := GetProp(options, "setDataTheme");
    if v.Undefined? then Bool(true) else v
  }

  /**
   * `applyThemeToElement(theme, element, options)`. Success carries the returned
   * boolean. Null options make the destructuring throw a TypeError before the `try`,
   * so the error reaches the caller.
   */
  method ApplyThemeToElement(theme: Value, element: StyledElement?, options: Value) returns (outcome: Result<bool, string>)
    modifies element
    ensures outcome == Success(false) <==> !Truthy(theme) || element == null
    ensures outcome.Failure? <==> Truthy(theme) && element != null && options.Null?
    ensures outcome.Failure? ==> outcome.error == "TypeError"
    ensures outcome != Success(true) && element != null ==>
      element.style == old(element.style) && element.attributes == old(element.attributes)
    ensures outcome == Success(true) ==> element.style == ApplyDecls(old(element.style), StyleWrites(ObjectEntries(theme)))
    ensures outcome == Success(true) && Truthy(SetDataThemeOption(options)) && Truthy(GetProp(theme, BaseKey)) ==>
      element.attributes == Put(old(element.attributes), "data-theme", GetProp(theme, BaseKey))
    ensures outcome == Success(true) && !(Truthy(SetDataThemeOption(options)) && Truthy(GetProp(theme, BaseKey))) ==>
      element.attributes == old(element.attributes)
  {
    if !Truthy(theme) || element == null {
      return Success(false);
    }
    if options.Null? {
      return Failure("TypeError");
    }
    var setDataTheme := SetDataThemeOption(options);
    var entries := ObjectEntries(theme);
    for i := 0 to |entries|
      invariant element.style == ApplyDecls(old(element.style), StyleWrites(entries[..i]))
      invariant element.attributes == old(element.attributes)
    {
      StyleWritesOfLongerPrefix(entries, i);
      ApplyDeclsAppend(old(element.style), StyleWrites(entries[..i]), EntryVarDecls(entries[i]) + EntryDerivedDecls(entries[i]));
      ApplyEntryToElement(element, entries[i]);
    }
    assert entries[..|entries|] == entries;
    var base := GetProp(theme, BaseKey);
    if Truthy(setDataTheme) && Truthy(base) {
      element.SetAttribute("data-theme", base);
    }
    return Success(true);
  }

  /** The `forEach` callback of `applyThemeToElement`: the properties one entry sets. */
  method ApplyEntryToElement(element: StyledElement, entry: (string, Value))
    modifies element
    ensures element.style == ApplyDecls(old(element.style), EntryVarDecls(entry) + EntryDerivedDecls(entry))
    ensures element.attributes == old(element.attributes)
  {
    var (key, value) := entry;
    if key != BaseKey {
      var cssVar := ConvertToCssVar(key);
      element.SetProperty(cssVar, value);
      assert element.style == ApplyDecls(old(element.style), [Decl(cssVar, value)]);
      if key == PrimaryColorKey {
        ApplyTintsToElement(element, value);
        ApplyDeclsAppend(old(element.style), [Decl(cssVar, value)], TintDecls(value));
      }
    }
  }

  /** The tint properties `applyThemeToElement` sets for a primary colour. */
  method ApplyTintsToElement(element: StyledElement, value: Value)
    modifies element
    ensures element.style == ApplyDecls(old(element.style), TintDecls(value))
    ensures element.attributes == old(element.attributes)
  {
    var hoverColor := HexToRgba(value, HoverAlpha);
    var focusColor := HexToRgba(value, FocusAlpha);
    var hover, focus := TintDecl(HoverVar, hoverColor), TintDecl(FocusVar, focusColor);
    if hoverColor.Some? {
      element.SetProperty(HoverVar, Str(hoverColor.value));
      assert [Decl(HoverVar, Str(hoverColor.value))][..0] == [];
    }
    assert element.style == ApplyDecls(old(element.style), hover);
    ghost var middle := element.style;
    if focusColor.Some? {
      element.SetProperty(FocusVar, Str(focusColor.value));
      assert [Decl(FocusVar, Str(focusColor.value))][..0] == [];
    }
    assert element.style == ApplyDecls(middle, focus);
    ApplyDeclsAppend(old(element.style), hover, focus);
  }
}

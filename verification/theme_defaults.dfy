/**
 * Facts about the constant tables of the theme resolver: the tint defaults are
 * what `hexToRgba` makes of the colour defaults.
 */
module ThemeDefaults {
  import opened Wrappers
  import opened Text
  import opened Dicts
  import opened Js
  import opened ThemeUtils

  /** `#FF4B4B`, the default primary colour, is rgb(255, 75, 75). */
  lemma PrimaryDefaultRgba(t: string, alpha: string)
    requires IsPrimaryDigits(t)
    ensures HexToRgba(Str("#" + t), alpha) == Some(RgbaText(Rgb(255, 75, 75), alpha))
  {
    assert ByteValue(t[0], t[1]) == 255 && ByteValue(t[2], t[3]) == 75 && ByteValue(t[4], t[5]) == 75;
    RgbaOfHashColour(t, alpha, Rgb(255, 75, 75));
  }

  /** `#262730`, the default text colour, is rgb(38, 39, 48). */
  lemma TextDefaultRgba(t: string, alpha: string)
    requires IsTextDigits(t)
    ensures HexToRgba(Str("#" + t), alpha) == Some(RgbaText(Rgb(38, 39, 48), alpha))
  {
    assert ByteValue(t[0], t[1]) == 38 && ByteValue(t[2], t[3]) == 39 && ByteValue(t[4], t[5]) == 48;
    RgbaOfHashColour(t, alpha, Rgb(38, 39, 48));
  }

  lemma HoverTintText()
    ensures Get(DefaultThemeValues, HoverVar) == Some(RgbaText(Rgb(255, 75, 75), HoverAlpha))
  {
    HoverEntry();
    HoverText();
  }

  lemma HoverEntry()
    ensures Get(DefaultThemeValues, HoverVar) == Some("rgba(255, 75, 75, 0.1)")
  {
    var d := DefaultThemeValues;
    assert forall j :: 0 <= j < 8 && j != 5 && j != 6 ==> |d[j].0| != |HoverVar|;
    // the two earlier keys of the same length differ from it at their sixth character
    assert d[5].0[5] == 'f' && d[6].0[5] == 'b' && HoverVar[5] == 'h';
    GetAt(d, 8, HoverVar);
  }

  lemma HoverText()
    ensures RgbaText(Rgb(255, 75, 75), HoverAlpha) == "rgba(255, 75, 75, 0.1)"
  {
  }

  lemma FocusTintText()
    ensures Get(DefaultThemeValues, FocusVar) == Some(RgbaText(Rgb(255, 75, 75), FocusAlpha))
  {
    FocusEntry();
    FocusText();
  }

  lemma FocusEntry()
    ensures Get(DefaultThemeValues, FocusVar) == Some("rgba(255, 75, 75, 0.25)")
  {
    var d := DefaultThemeValues;
    assert forall j :: 0 <= j < 9 && j != 5 && j != 6 && j != 8 ==> |d[j].0| != |FocusVar|;
    // the three earlier keys of the same length differ from it at their sixth or eighth character
    assert d[5].0[7] == 'n' && FocusVar[7] == 'c';
    assert d[6].0[5] == 'b' && d[8].0[5] == 'h' && FocusVar[5] == 'f';
    GetAt(d, 9, FocusVar);
  }

  lemma FocusText()
    ensures RgbaText(Rgb(255, 75, 75), FocusAlpha) == "rgba(255, 75, 75, 0.25)"
  {
  }

  lemma DisabledTintText()
    ensures Get(DefaultThemeValues, "--fp-disabled-color") == Some(RgbaText(Rgb(38, 39, 48), "0.3"))
  {
    DisabledEntry();
    DisabledText();
  }

  lemma DisabledEntry()
    ensures Get(DefaultThemeValues, "--fp-disabled-color") == Some("rgba(38, 39, 48, 0.3)")
  {
    var k := "--fp-disabled-color";
    assert |k| == 19;
    assert forall j :: 0 <= j < 10 ==> |DefaultThemeValues[j].0| != 19;
    GetAt(DefaultThemeValues, 10, k);
  }

  lemma DisabledText()
    ensures RgbaText(Rgb(38, 39, 48), "0.3") == "rgba(38, 39, 48, 0.3)"
  {
  }

  predicate IsPrimaryDigits(t: string)
  {
    |t| == 6 && t[0] == 'F' && t[1] == 'F' && t[2] == '4' && t[3] == 'B' && t[4] == '4' && t[5] == 'B'
  }

  predicate IsTextDigits(t: string)
  {
    |t| == 6 && t[0] == '2' && t[1] == '6' && t[2] == '2' && t[3] == '7' && t[4] == '3' && t[5] == '0'
  }

  lemma PrimaryEntry(primary: string)
    requires IsPrimaryDigits(primary)
    ensures Get(DefaultThemeValues, "--fp-primary-color") == Some("#" + primary)
  {
    GetAt(DefaultThemeValues, 0, "--fp-primary-color");
    assert DefaultThemeValues[0].1 == "#" + primary;
  }

  lemma TextEntry(text: string)
    requires IsTextDigits(text)
    ensures Get(DefaultThemeValues, "--fp-text-color") == Some("#" + text)
  {
    var k := "--fp-text-color";
    assert forall j :: 0 <= j < 3 ==> |DefaultThemeValues[j].0| != |k|;
    GetAt(DefaultThemeValues, 3, k);
    TextDigitsSpelled(text);
  }

  lemma TextDigitsSpelled(text: string)
    requires IsTextDigits(text)
    ensures "#" + text == "#262730"
  {
  }

  /**
   * The hover and focus defaults are `hexToRgba` of the default primary colour
   * (`#` followed by `primary`, which is FF4B4B) at alpha 0.1 and 0.25.
   */
  lemma PrimaryTintsAgree(primary: string)
    requires IsPrimaryDigits(primary)
    ensures Get(DefaultThemeValues, "--fp-primary-color") == Some("#" + primary)
    ensures Get(DefaultThemeValues, HoverVar) == HexToRgba(Str("#" + primary), HoverAlpha)
    ensures Get(DefaultThemeValues, FocusVar) == HexToRgba(Str("#" + primary), FocusAlpha)
  {
    PrimaryEntry(primary);
    PrimaryDefaultRgba(primary, HoverAlpha);
    PrimaryDefaultRgba(primary, FocusAlpha);
    HoverTintText();
    FocusTintText();
  }

  /**
   * The disabled default is `hexToRgba` of the default text colour (`#` followed by
   * `text`, which is 262730) at alpha 0.3.
   */
  lemma DisabledTintAgrees(text: string)
    requires IsTextDigits(text)
    ensures Get(DefaultThemeValues, "--fp-text-color") == Some("#" + text)
    ensures Get(DefaultThemeValues, "--fp-disabled-color") == HexToRgba(Str("#" + text), "0.3")
  {
    TextEntry(text);
    TextDefaultRgba(text, "0.3");
    DisabledTintText();
  }

  // ---------------------------------------------------------------------------
  // The primary colour in the container block
  // ---------------------------------------------------------------------------

  /** No dark override names the primary colour variable. */
  lemma DarkOverridesSparePrimary(dark: bool)
    ensures EffectiveValue(if dark then DarkThemeDecls() else [], CssVarMappings[0].1) == None
  {
    var p := CssVarMappings[0].1;
    assert |p| == 18;
    var d := DarkThemeDecls();
    assert |d[0].property| == 21 && |d[1].property| == 31 && |d[2].property| == 15 && |d[3].property| == 17;
  }

  /** The default declarations give the primary colour variable `#` followed by `primary`. */
  lemma DefaultPrimaryDecl(primary: string, dark: bool)
    requires IsPrimaryDigits(primary)
    ensures EffectiveValue(DefaultDecls(dark), CssVarMappings[0].1) == Some(Str("#" + primary))
  {
    var p := CssVarMappings[0].1;
    var t := DefaultThemeValues;
    var decls := DeclsOf(t);
    assert t[0].0 == p && t[0].1 == "#" + primary;
    assert forall j :: 0 < j < |t| ==> |t[j].0| != |p|;
    EffectiveValueAt(decls, 0, p);
    DarkOverridesSparePrimary(dark);
    EffectiveValueAppend(decls, if dark then DarkThemeDecls() else [], p);
  }

  /**
   * As written, a theme that sets only `primaryColor` does not change the primary
   * colour variable of the container: the default `#FF4B4B` (`#` followed by `primary`)
   * comes later in the block and wins, whatever the colour.
   */
  lemma PrimaryColorIgnoredAsWritten(color: Value, primary: string, dark: bool)
    requires IsPrimaryDigits(primary)
    ensures var css := ThemeCssOf(Obj([(PrimaryColorKey, color)]));
      EffectiveValue(ContainerDeclsAsWritten(css, dark), CssVarMappings[0].1) == Some(Str("#" + primary))
  {
    var p := CssVarMappings[0].1;
    PrimaryEntry(primary);
    DefaultsOverrideThemeAsWritten(ThemeCssOf(Obj([(PrimaryColorKey, color)])), dark, p);
    DefaultPrimaryDecl(primary, dark);
  }

  /** With the defaults first, the same theme gives the container its own primary colour. */
  lemma PrimaryColorAppliedCorrected(color: Value, dark: bool)
    ensures var css := ThemeCssOf(Obj([(PrimaryColorKey, color)]));
      EffectiveValue(ContainerDecls(css, dark), CssVarMappings[0].1) == Some(color)
  {
    var p := CssVarMappings[0].1;
    var css := ThemeCssOf(Obj([(PrimaryColorKey, color)]));
    PrimaryOnlyThemeDecls(color);
    assert p[0] == '-';
    ThemeOverridesDefaults(css, dark, p);
  }

  /** The declarations built from a theme that sets only `primaryColor` give it that colour. */
  lemma PrimaryOnlyThemeDecls(color: Value)
    ensures var css := ThemeCssOf(Obj([(PrimaryColorKey, color)]));
      EffectiveValue(css.cssVars + css.derivedVars, CssVarMappings[0].1) == Some(color)
  {
    var p := CssVarMappings[0].1;
    var es := [(PrimaryColorKey, color)];
    assert ObjectEntries(Obj(es)) == es;
    var a, b := VarDecls(es), DerivedDecls(es);
    PrimaryOnlyVarDecls(color);
    EffectiveValueAt(a, 0, p);
    TintsSparePrimary(color);
    EffectiveValueAppend(a, b, p);
  }

  lemma PrimaryOnlyVarDecls(color: Value)
    ensures VarDecls([(PrimaryColorKey, color)]) == [Decl(CssVarMappings[0].1, color)]
  {
    var es := [(PrimaryColorKey, color)];
    assert |PrimaryColorKey| != |BaseKey|;
    assert PrimaryColorKey == CssVarMappings[0].0;
    ConvertMappedKey(0);
    assert EntryVarDecls(es[0]) == [Decl(CssVarMappings[0].1, color)];
    assert es[..|es| - 1] == [];
  }

  lemma TintsSparePrimary(color: Value)
    ensures EffectiveValue(DerivedDecls([(PrimaryColorKey, color)]), CssVarMappings[0].1) == None
  {
    var es := [(PrimaryColorKey, color)];
    assert es[..0] == [];
    assert |HoverVar| == 16 && |FocusVar| == 16 && |CssVarMappings[0].1| == 18;
  }
}

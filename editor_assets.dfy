/**
 * The value-shaping part of `generateblocks_do_block_editor_assets`: when the
 * GeneratePress theme is active, its button colours become an inline CSS rule
 * for `.gb-button.button`; and the block defaults the editor script receives as
 * `generateBlocksStyling`, with headline margins taken from the theme's fonts.
 *
 * The WordPress calls become inputs: `get_option('generate_settings')` is the
 * stored settings map, each `function_exists` check together with the defaults
 * that function returns is an optional map, and each `apply_filters` hook is a
 * function.
 */
module EditorAssets {
  import opened Wrappers
  import opened Platform

  type Styling = map<string, string>
  type BlockStyles = map<string, map<string, string>>

  datatype Environment = Environment(
    storedSettings: map<string, string>,         // get_option( 'generate_settings', array() )
    colorDefaults: Option<map<string, string>>,  // generate_get_color_defaults(), when it exists
    fontDefaults: Option<map<string, string>>,   // generate_get_default_fonts(), when it exists
    stylingFilter: Styling -> Styling,           // the 'generateblocks_gp_default_styling' hook
    blockStylesFilter: BlockStyles -> BlockStyles) // the 'generateblocks_default_block_styles' hook

  /** What the function hands to the editor: the inline style, if one is added, and the localized block styles. */
  datatype EditorStyles = EditorStyles(inlineCss: Option<string>, blockStyles: BlockStyles)

  // ---- The theme's button styling ----------------------------------------

  const StylingKeys := {
    "buttonBackground", "buttonBackgroundHover", "buttonText", "buttonTextHover",
    "buttonPaddingTop", "buttonPaddingRight", "buttonPaddingBottom", "buttonPaddingLeft"
  }

  /** `$generatepressDefaultStyling` before its filter runs. */
  function GpDefaultStyling(colorSettings: map<string, string>): (s: Styling)
    ensures s.Keys == StylingKeys
    ensures s["buttonBackground"] == Read(colorSettings, "form_button_background_color")
    ensures s["buttonBackgroundHover"] == Read(colorSettings, "form_button_background_color_hover")
    ensures s["buttonText"] == Read(colorSettings, "form_button_text_color")
    ensures s["buttonTextHover"] == Read(colorSettings, "form_button_text_color_hover")
    ensures s["buttonPaddingTop"] == "10px" && s["buttonPaddingRight"] == "20px"
    ensures s["buttonPaddingBottom"] == "10px" && s["buttonPaddingLeft"] == "20px"
  {
    map[
      "buttonBackground" := Read(colorSettings, "form_button_background_color"),
      "buttonBackgroundHover" := Read(colorSettings, "form_button_background_color_hover"),
      "buttonText" := Read(colorSettings, "form_button_text_color"),
      "buttonTextHover" := Read(colorSettings, "form_button_text_color_hover"),
      "buttonPaddingTop" := "10px",
      "buttonPaddingRight" := "20px",
      "buttonPaddingBottom" := "10px",
      "buttonPaddingLeft" := "20px"
    ]
  }

  // ---- The two CSS rules ---------------------------------------------------

  const Selector: PlainText := ".gb-button.button"
  const BackgroundDecl: PlainText := " {\n\t\t\t\tbackground-color: "
  const ButtonOpen: PlainText := Selector + BackgroundDecl
  const HoverOpen: PlainText := Selector + ":active, " + Selector + ":hover, " + Selector + ":focus" + BackgroundDecl
  const ColorDecl: PlainText := ";\n\t\t\t\tcolor: "
  const PaddingTopDecl: PlainText := ";\n\t\t\t\tpadding-top: "
  const PaddingRightDecl: PlainText := ";\n\t\t\t\tpadding-right: "
  const PaddingBottomDecl: PlainText := ";\n\t\t\t\tpadding-bottom: "
  const PaddingLeftDecl: PlainText := ";\n\t\t\t\tpadding-left: "
  const RuleClose: PlainText := ";\n\t\t\t}"

  /** One declaration of a rule: the text up to its value, then the value as the N-th argument. */
  function Decl(text: PlainText, n: ArgNum): seq<Piece>
  {
    [Text(text), Arg(n)]
  }

  /** The format string of the base rule, with its six positional conversions. */
  const ButtonTemplate: seq<Piece> :=
    Decl(ButtonOpen, 1) + Decl(ColorDecl, 2)
    + Decl(PaddingTopDecl, 3) + Decl(PaddingRightDecl, 4)
    + Decl(PaddingBottomDecl, 5) + Decl(PaddingLeftDecl, 6)
    + [Text(RuleClose)]

  /** The format string of the rule for the active, hover and focus states. */
  const HoverTemplate: seq<Piece> := Decl(HoverOpen, 1) + Decl(ColorDecl, 2) + [Text(RuleClose)]

  /** The base rule, written out as fixed fragments around the inserted values. */
  function ButtonRule(background: string, text: string, top: string, right: string, bottom: string, left: string): string
  {
    (ButtonOpen + background) + (ColorDecl + text)
    + (PaddingTopDecl + top) + (PaddingRightDecl + right)
    + (PaddingBottomDecl + bottom) + (PaddingLeftDecl + left)
    + RuleClose
  }

  /** The state rule, written out as fixed fragments around the inserted values. */
  function HoverRule(background: string, text: string): string
  {
    (HoverOpen + background) + (ColorDecl + text) + RuleClose
  }

  /** The inline CSS for a (filtered) styling map: the base rule, then the state rule. */
  function ButtonCss(styling: Styling): string
  {
    ButtonRule(
      Read(styling, "buttonBackground"), Read(styling, "buttonText"),
      Read(styling, "buttonPaddingTop"), Read(styling, "buttonPaddingRight"),
      Read(styling, "buttonPaddingBottom"), Read(styling, "buttonPaddingLeft"))
    + HoverRule(Read(styling, "buttonBackgroundHover"), Read(styling, "buttonTextHover"))
  }

  /** A declaration fills as its text followed by the argument it names. */
  lemma FillDecl(text: PlainText, n: ArgNum, args: seq<string>)
    requires n <= |args|
    ensures ArgsPassed(Decl(text, n), |args|)
    ensures Fill(Decl(text, n), args) == text + args[n - 1]
  {
    var d := Decl(text, n);
    assert d[1..][1..] == [];
    assert Fill(d[1..], args) == args[n - 1] + "";
    assert args[n - 1] + "" == args[n - 1];
  }

  /** The closing brace of a rule fills as itself. */
  lemma FillClose(args: seq<string>)
    ensures ArgsPassed([Text(RuleClose)], |args|)
    ensures Fill([Text(RuleClose)], args) == RuleClose
  {
  }

  /** `sprintf` puts background, text colour, then padding top, right, bottom and left into the base rule, in that order. */
  lemma ButtonTemplateFills(args: seq<string>)
    requires |args| == 6
    ensures Sprintf(Render(ButtonTemplate), args)
      == Some(ButtonRule(args[0], args[1], args[2], args[3], args[4], args[5]))
  {
    var d1, d2, d3 := Decl(ButtonOpen, 1), Decl(ColorDecl, 2), Decl(PaddingTopDecl, 3);
    var d4, d5, d6 := Decl(PaddingRightDecl, 4), Decl(PaddingBottomDecl, 5), Decl(PaddingLeftDecl, 6);
    var close := [Text(RuleClose)];
    FillDecl(ButtonOpen, 1, args);
    FillDecl(ColorDecl, 2, args);
    FillDecl(PaddingTopDecl, 3, args);
    FillDecl(PaddingRightDecl, 4, args);
    FillDecl(PaddingBottomDecl, 5, args);
    FillDecl(PaddingLeftDecl, 6, args);
    FillClose(args);
    FillAppend(d1, d2, args);
    FillAppend(d1 + d2, d3, args);
    FillAppend(d1 + d2 + d3, d4, args);
    FillAppend(d1 + d2 + d3 + d4, d5, args);
    FillAppend(d1 + d2 + d3 + d4 + d5, d6, args);
    FillAppend(d1 + d2 + d3 + d4 + d5 + d6, close, args);
    SprintfFillsTemplate(ButtonTemplate, args);
  }

  /** `sprintf` puts the hover background, then the hover text colour, into the state rule. */
  lemma HoverTemplateFills(args: seq<string>)
    requires |args| == 2
    ensures Sprintf(Render(HoverTemplate), args) == Some(HoverRule(args[0], args[1]))
  {
    var d1, d2 := Decl(HoverOpen, 1), Decl(ColorDecl, 2);
    FillDecl(HoverOpen, 1, args);
    FillDecl(ColorDecl, 2, args);
    FillClose(args);
    FillAppend(d1, d2, args);
    FillAppend(d1 + d2, [Text(RuleClose)], args);
    SprintfFillsTemplate(HoverTemplate, args);
  }

  /** With nothing hooked on the styling filter, the rule takes the theme's four `form_button_*` colours, the stored value winning over the default, and fixed paddings. */
  lemma UnfilteredButtonCss(stored: map<string, string>, defaults: map<string, string>)
    ensures ButtonCss(GpDefaultStyling(ParseArgs(stored, defaults)))
      == ButtonRule(
           ThemeSetting(stored, defaults, "form_button_background_color"),
           ThemeSetting(stored, defaults, "form_button_text_color"),
           "10px", "20px", "10px", "20px")
         + HoverRule(
           ThemeSetting(stored, defaults, "form_button_background_color_hover"),
           ThemeSetting(stored, defaults, "form_button_text_color_hover"))
  {
  }

  /** A theme setting as the merged settings give it: the stored value if there is one, else the theme's default, else empty. */
  function ThemeSetting(stored: map<string, string>, defaults: map<string, string>, key: string): string
  {
    if key in stored then stored[key] else Read(defaults, key)
  }

  // ---- The block defaults handed to the editor -----------------------------

  /** The button defaults, the same whatever the theme. */
  const ButtonDefaults: map<string, string> := map[
    "backgroundColor" := "#0366d6",
    "textColor" := "#ffffff",
    "backgroundColorHover" := "#222222",
    "textColorHover" := "#ffffff",
    "paddingTop" := "15",
    "paddingRight" := "20",
    "paddingBottom" := "15",
    "paddingLeft" := "20"
  ]

  const HeadlineKeys := {"paragraphMargin", "h1Margin", "h2Margin", "h3Margin", "h4Margin", "h5Margin", "h6Margin"}

  /** The setting a suffixed value was made from: the value without its unit, if it ends with that unit. */
  function StripUnit(value: string, unit: string): Option<string>
  {
    if |unit| <= |value| && value[|value| - |unit|..] == unit then Some(value[..|value| - |unit|]) else None
  }

  /** Appending a unit with PHP's `.` can be undone: the setting is recovered from the suffixed value. */
  lemma StripUnitAppended(setting: string, unit: string)
    ensures StripUnit(setting + unit, unit) == Some(setting)
  {
  }

  /** `$defaultBlockStyles['headline']`: margins from the theme's font settings, with their CSS units. */
  function HeadlineStyles(fontSettings: map<string, string>): (h: map<string, string>)
    ensures h.Keys == HeadlineKeys
    ensures h["h4Margin"] == "20px" && h["h5Margin"] == "20px" && h["h6Margin"] == "20px"
  {
    map[
      "paragraphMargin" := Read(fontSettings, "paragraph_margin") + "em",
      "h1Margin" := Read(fontSettings, "heading_1_margin_bottom") + "px",
      "h2Margin" := Read(fontSettings, "heading_2_margin_bottom") + "px",
      "h3Margin" := Read(fontSettings, "heading_3_margin_bottom") + "px",
      "h4Margin" := "20px",
      "h5Margin" := "20px",
      "h6Margin" := "20px"
    ]
  }

  /** The paragraph margin is the setting in `em`, the first three heading margins are their settings in `px`. */
  lemma HeadlineMarginUnits(fontSettings: map<string, string>)
    ensures var h := HeadlineStyles(fontSettings);
      && StripUnit(h["paragraphMargin"], "em") == Some(Read(fontSettings, "paragraph_margin"))
      && StripUnit(h["h1Margin"], "px") == Some(Read(fontSettings, "heading_1_margin_bottom"))
      && StripUnit(h["h2Margin"], "px") == Some(Read(fontSettings, "heading_2_margin_bottom"))
      && StripUnit(h["h3Margin"], "px") == Some(Read(fontSettings, "heading_3_margin_bottom"))
  {
    StripUnitAppended(Read(fontSettings, "paragraph_margin"), "em");
    StripUnitAppended(Read(fontSettings, "heading_1_margin_bottom"), "px");
    StripUnitAppended(Read(fontSettings, "heading_2_margin_bottom"), "px");
    StripUnitAppended(Read(fontSettings, "heading_3_margin_bottom"), "px");
  }

  /** `$defaultBlockStyles` before its filter: always the button defaults, and headline margins only when the theme's font settings exist. */
  function DefaultBlockStyles(fontSettings: Option<map<string, string>>): (s: BlockStyles)
    ensures "button" in s && s["button"] == ButtonDefaults
    ensures "headline" in s <==> fontSettings.Some?
    ensures s.Keys <= {"button", "headline"}
    ensures fontSettings.Some? ==> s["headline"] == HeadlineStyles(fontSettings.value)
  {
    var styles := map["button" := ButtonDefaults];
    if fontSettings.Some? then styles["headline" := HeadlineStyles(fontSettings.value)] else styles
  }

  /** The theme's font settings merged over its defaults, when `generate_get_default_fonts` exists. */
  function FontSettings(env: Environment): Option<map<string, string>>
  {
    match env.fontDefaults
    case Some(defaults) => Some(ParseArgs(env.storedSettings, defaults))
    case None => None
  }

  /** The theme's button styling after the styling filter, when `generate_get_color_defaults` exists. */
  function FilteredStyling(env: Environment): Styling
    requires env.colorDefaults.Some?
  {
    env.stylingFilter(GpDefaultStyling(ParseArgs(env.storedSettings, env.colorDefaults.value)))
  }

  // ---- The hook itself -----------------------------------------------------

  /**
   * The styles part of `generateblocks_do_block_editor_assets`: builds the CSS with two
   * `sprintf` calls joined by `.=`, and adds the headline entry to the block defaults in place.
   */
  method DoBlockEditorAssets(env: Environment) returns (out: EditorStyles)
    ensures out.inlineCss.Some? <==> env.colorDefaults.Some?
    ensures env.colorDefaults.Some? ==> out.inlineCss.value == ButtonCss(FilteredStyling(env))
    ensures out.blockStyles == env.blockStylesFilter(DefaultBlockStyles(FontSettings(env)))
  {
    var inlineCss := None;
    if env.colorDefaults.Some? {
      var colorSettings := ParseArgs(env.storedSettings, env.colorDefaults.value);
      var styling := env.stylingFilter(GpDefaultStyling(colorSettings));
      var base := [
        Read(styling, "buttonBackground"), Read(styling, "buttonText"),
        Read(styling, "buttonPaddingTop"), Read(styling, "buttonPaddingRight"),
        Read(styling, "buttonPaddingBottom"), Read(styling, "buttonPaddingLeft")];
      ButtonTemplateFills(base);
      var css := Sprintf(Render(ButtonTemplate), base).value;
      var states := [Read(styling, "buttonBackgroundHover"), Read(styling, "buttonTextHover")];
      HoverTemplateFills(states);
      css := css + Sprintf(Render(HoverTemplate), states).value;
      inlineCss := Some(css);
    }

    var blockStyles := map["button" := ButtonDefaults];
    if env.fontDefaults.Some? {
      var fontSettings := ParseArgs(env.storedSettings, env.fontDefaults.value);
      blockStyles := blockStyles["headline" := HeadlineStyles(fontSettings)];
    }
    out := EditorStyles(inlineCss, env.blockStylesFilter(blockStyles));
  }
}

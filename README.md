# GenerateBlocks editor hooks, modelled in Dafny

GenerateBlocks is a WordPress plugin that adds page-building blocks (container,
button, headline, ...) to the block editor. Almost all of its PHP is glue that
hands assets to WordPress. This project models the parts of
`includes/general.php` that compute something:

- **Bold font variants** (`generateblocks_do_bold_google_fonts`, module
  `BoldFonts`): the `generateblocks_google_font_variants` filter appends `700`
  and `700i` when the variant list lacks `700`. It is modelled as a method that
  appends to its own copy of the list, proved against the function
  `WithBoldVariants`.
- **Block category** (`generateblocks_do_category`, module `Categories`): the
  `block_categories` filter puts the plugin's `generateblocks` category in front
  of the editor's categories.
- **Default styles** (the value-building part of
  `generateblocks_do_block_editor_assets`, module `EditorAssets`):
  - when GeneratePress's colour defaults exist, the theme's button colours become
    the `$generatepressDefaultStyling` map;
  - that map fills two CSS rule templates with `sprintf`, and the two rules are
    joined with `.=` into the inline style;
  - the `generateBlocksStyling` defaults always hold a button entry. A headline
    entry with unit-suffixed margins is added when GeneratePress's font defaults
    exist.

  `DoBlockEditorAssets` builds these values step by step as the PHP does. Its
  contract ties them to the reference functions `ButtonCss`, `FilteredStyling`
  and `DefaultBlockStyles`.

The module `Platform` models the PHP and WordPress behaviour these hooks rely on:
- reading a missing array key, which gives null and formats as the empty string;
- `wp_parse_args`, which is `array_merge($defaults, $args)`;
- the part of `sprintf` that the templates use, namely `%N$s` positional
  conversions and `%%`.

A CSS template is written as a list of pieces, either literal text without `%`
or a positional argument. `Render` turns the list into the format string, and
`Fill` gives the text that filling it means. `SprintfFillsTemplate` proves by
induction that `sprintf` on the rendered format gives exactly the filled text.

The WordPress calls that the hook makes are inputs of an `Environment`:
- `get_option('generate_settings', array())` is `storedSettings`.
- Each `function_exists(...)` check, together with the defaults that function
  returns, is an optional map: `colorDefaults` and `fontDefaults` are present
  exactly when the function exists.
- The two `apply_filters` hooks are function-valued fields (`stylingFilter`,
  `blockStylesFilter`). With nothing hooked, they are the identity.

## Model

| member | source | states |
|---|---|---|
| `BoldFonts.DoBoldGoogleFonts` | includes/general.php:183-190 | The filter returns its input, extended in place as the bold-variant rule prescribes (`WithBoldVariants`). |
| `BoldFonts.BoldVariantsAppended` | includes/general.php:184-189 | The result is the input followed by exactly `700` then `700i` if and only if `700` is absent. The result equals the input if and only if `700` is present, even when `700i` is missing. |
| `BoldFonts.BoldVariantsKeepInput` | includes/general.php:183-190 | Existing variants keep their positions and order (the input is a prefix of the result). The result contains `700`, its length is the input length or that plus two, and no variant is lost (multiset inclusion). |
| `BoldFonts.BoldVariantsIdempotent` | includes/general.php:183-190 | Applying the filter twice gives the same list as applying it once. |
| `Categories.PluginCategory` | includes/general.php:152-156 | The plugin category has exactly the keys `slug` and `title`. Its slug is `generateblocks` and its title is the translation of `GenerateBlocks` in the `generateblocks` text domain. |
| `Categories.DoCategory` | includes/general.php:150-160 | The first category is the plugin's, with slug `generateblocks`. The rest are the input categories in their original order, so the length grows by one. |
| `Categories.DoCategoryAddsOne` | includes/general.php:150-160 | The number of categories with slug `generateblocks` grows by exactly one, whatever the input held: there is no deduplication. |
| `Categories.DoCategoryTwice` | includes/general.php:150-160 | Applying the filter twice puts two `generateblocks` categories in front of the unchanged input list. |
| `Platform.ParseArgs` | includes/general.php:56-59 | Merging settings over defaults keeps every key of both. A stored value wins, and a default fills a key that has no stored value. |
| `Platform.SprintfFillsTemplate` | includes/general.php:72-96 | `sprintf` on a template's format string copies each literal text and replaces each `%N$s` by the N-th argument, in order. It succeeds whenever every referenced argument was passed. |
| `EditorAssets.ButtonTemplateFills` | includes/general.php:72-87 | The base rule's six placeholders receive background, text colour, then padding top, right, bottom and left, in that order, between the rule's fixed fragments. |
| `EditorAssets.HoverTemplateFills` | includes/general.php:89-96 | The active/hover/focus rule receives the hover background, then the hover text colour, between its fixed fragments. |
| `EditorAssets.GpDefaultStyling` | includes/general.php:61-70 | The styling map the filter receives has exactly the eight button keys. Its four colours are the merged settings' `form_button_background_color`, `form_button_background_color_hover`, `form_button_text_color` and `form_button_text_color_hover`. Its paddings are `10px`/`20px`/`10px`/`20px` (top, right, bottom, left). |
| `EditorAssets.UnfilteredButtonCss` | includes/general.php:56-96 | With nothing hooked on the styling filter, the inline CSS takes its four colours from the `form_button_*` settings, each stored value winning over the theme default. The paddings are `10px`/`20px`/`10px`/`20px`, and the CSS is the base rule followed by the state rule. |
| `EditorAssets.HeadlineStyles` | includes/general.php:126-134 | The headline entry has exactly the seven margin keys. `h4Margin` to `h6Margin` are `20px` whatever the settings. |
| `EditorAssets.HeadlineMarginUnits` | includes/general.php:126-130 | Stripping `em` from `paragraphMargin` gives back the `paragraph_margin` setting. Stripping `px` from `h1Margin` to `h3Margin` gives back the matching `heading_N_margin_bottom` settings. |
| `EditorAssets.StripUnitAppended` | includes/general.php:127-130 | Appending a unit with `.` can be undone: stripping the unit gives back the setting. |
| `EditorAssets.DefaultBlockStyles` | includes/general.php:107-135 | The block defaults always contain `button` with the fixed defaults (`#0366d6`, `#ffffff`, `#222222`, `#ffffff`, `15`/`20`/`15`/`20`). They contain `headline` exactly when font settings exist, and then it is built from those settings. They contain nothing else. |
| `EditorAssets.DoBlockEditorAssets` | includes/general.php:55-141 | An inline style is produced exactly when the colour defaults exist, and it equals `ButtonCss(FilteredStyling(env))`: the base rule, then the state rule, of the styling after its filter. The localized block styles equal the block-styles filter applied to `DefaultBlockStyles(FontSettings(env))`. |

## Left out

- Enqueueing and localizing (`wp_enqueue_script`, `wp_enqueue_style`, `wp_localize_script`, `wp_add_inline_style`) and `filemtime`: these are platform I/O. The model returns the values that would be handed to them.
- The `generateBlocksInfo` localization (lines 46-53) and `generateBlocksDefaults` (lines 101-105): they only pass through platform answers (`defined`, `post_type_supports`) and a function that is not part of this model.
- `generateblocks_do_google_fonts` and `generateblocks_register_meta`: platform calls with no logic of their own. So is the `ABSPATH` guard.
- `get_option`, `function_exists`, `generate_get_color_defaults`, `generate_get_default_fonts`, `__()` and `apply_filters` are platform or theme code. They become inputs: a settings map, optional default maps, a translation function and filter functions.
- `BoldFonts.WithBoldVariants`: PHP's non-strict `in_array` also matches values that compare loosely equal to `'700'`, such as the integer 700. Variants are modelled as strings compared exactly.
- PHP array values are modelled as strings. A setting stored as a number would be converted to its decimal text by `sprintf` and `.`, and the model starts from that text.
- `Platform.Sprintf` interprets only `%N$s` with a single-digit N, and `%%`. It gives `None` both where PHP raises an error (such as a reference to a missing argument) and for valid conversions that this model does not interpret, such as `%s`, `%d`, `%5s` or `%10$s`, where PHP returns text. The hook's templates use neither.
- `Platform.ParseArgs` models `wp_parse_args` for two string-keyed arrays only. The object and query-string forms of its first argument are not modelled.
- A missing array key reads as the empty string. PHP also emits a notice there, which is not modelled.
- `src/components/color-picker/index.js` and `src/blocks/container/block.js`: a React UI component and a declarative block registration, with no server-side logic.

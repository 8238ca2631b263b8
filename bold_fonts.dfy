/**
 * The `generateblocks_google_font_variants` filter: make sure a bold weight is
 * requested for every Google font, so that words set in bold inside a block are
 * rendered with the font's own bold face.
 */
module BoldFonts {
  const Bold := "700"
  const BoldItalic := "700i"

  /** The variant list the filter hands back. */
  function WithBoldVariants(variants: seq<string>): seq<string>
  {
    if Bold in variants then variants else variants + [Bold, BoldItalic]
  }

  /** The filter callback: copies its argument and appends to the copy in place. */
  method DoBoldGoogleFonts(variants: seq<string>) returns (result: seq<string>)
    ensures result == WithBoldVariants(variants)
  {
    result := variants;
    if Bold !in variants {
      result := result + [Bold];
      result := result + [BoldItalic];
    }
  }

  /** Without `700` the list gains exactly `700` then `700i` at its end; with it, nothing changes, even if `700i` is missing. */
  lemma BoldVariantsAppended(variants: seq<string>)
    ensures Bold !in variants <==> WithBoldVariants(variants) == variants + [Bold, BoldItalic]
    ensures Bold in variants <==> WithBoldVariants(variants) == variants
  {
  }

  /** Existing variants are kept in place and order; the result holds `700` and grows by nothing or by two. */
  lemma BoldVariantsKeepInput(variants: seq<string>)
    ensures var r := WithBoldVariants(variants);
      && Bold in r
      && r[..|variants|] == variants
      && (|r| == |variants| || |r| == |variants| + 2)
      && multiset(variants) <= multiset(r)
  {
  }

  /** Running the filter a second time changes nothing. */
  lemma BoldVariantsIdempotent(variants: seq<string>)
    ensures WithBoldVariants(WithBoldVariants(variants)) == WithBoldVariants(variants)
  {
  }
}

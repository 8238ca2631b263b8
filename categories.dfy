/**
 * The `block_categories` filter: the plugin's own category is put in front of
 * the categories the editor already knows.
 */
module Categories {
  /** A category as the editor passes it around: a string-keyed array (`slug`, `title`, ...). */
  type Category = map<string, string>

  const Slug := "generateblocks"
  const Title := "GenerateBlocks"
  const TextDomain := "generateblocks"

  /** The plugin's category, titled with the translation of its name. */
  function PluginCategory(translate: (string, string) -> string): (c: Category)
    ensures c.Keys == {"slug", "title"}
    ensures c["slug"] == Slug && c["title"] == translate(Title, TextDomain)
  {
    map["slug" := Slug, "title" := translate(Title, TextDomain)]
  }

  /**
   * `array_merge` of a one-element list with the given list. `translate` stands for
   * the platform's `__()`.
   */
  function DoCategory(categories: seq<Category>, translate: (string, string) -> string): (r: seq<Category>)
    ensures |r| == |categories| + 1
    ensures "slug" in r[0] && r[0]["slug"] == Slug
    ensures r[0] == PluginCategory(translate)
    ensures r[1..] == categories
  {
    [PluginCategory(translate)] + categories
  }

  predicate HasSlug(c: Category, slug: string)
  {
    "slug" in c && c["slug"] == slug
  }

  /** How many categories in the list carry the slug. */
  function SlugCount(categories: seq<Category>, slug: string): nat
  {
    if categories == [] then 0
    else (if HasSlug(categories[0], slug) then 1 else 0) + SlugCount(categories[1..], slug)
  }

  /** The filter adds one `generateblocks` category however many the list held: it does not deduplicate. */
  lemma DoCategoryAddsOne(categories: seq<Category>, translate: (string, string) -> string)
    ensures SlugCount(DoCategory(categories, translate), Slug) == SlugCount(categories, Slug) + 1
  {
  }

  /** Applied twice, the filter leaves two `generateblocks` categories in front of the original list. */
  lemma DoCategoryTwice(categories: seq<Category>, translate: (string, string) -> string)
    ensures var r := DoCategory(DoCategory(categories, translate), translate);
      && HasSlug(r[0], Slug) && HasSlug(r[1], Slug)
      && r[2..] == categories
      && SlugCount(r, Slug) == SlugCount(categories, Slug) + 2
  {
  }
}

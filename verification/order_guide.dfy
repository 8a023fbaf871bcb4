/** The order-guide home page of the client: the picture of an ingredient,
    the search over ingredients, products and vendors, and the "all
    products" list assembled from the search result. */
module OrderGuide {
  import opened Wrappers
  import opened Seqs
  import opened Strings
  import opened ProductComparison
  import opened Slugs

  /** The folder the ingredient pictures are served from. */
  const ImageBase := "/images/ingredients"

  /** The ingredients whose picture file is not named after them. */
  const ImageFiles: map<string, string> := map[
    "Eggs" := "Eggs-brown.png",
    "Butter" := "Butter.png",
    "Chicken breast" := "Chicken.png",
    "Asparagus" := "Asparagus.png",
    "Bell peppers" := "Bell-peppers.png",
    "Black pepper" := "Black-pepper.png",
    "Gouda cheese" := "Cheese-gouda.png",
    "Parmesan cheese" := "Cheese-parmesan.png",
    "Parmesan grated" := "Cheese-parmesan-grated.png",
    "Cherries" := "Cherries.png",
    "Chia seeds" := "Chia-seeds.png",
    "Chicken" := "Chicken.png",
    "Cornmeal" := "Cornmeal.png",
    "Liquid eggs" := "Eggs-liquid.png",
    "Egg whites" := "Eggs-white.png",
    "Flax seeds" := "Flax-Seeds.png",
    "Green pepper" := "Green-pepper.png",
    "Ground beef" := "Ground-Beef.png",
    "Hemp seeds" := "Hemp-seeds.png",
    "Kale" := "Kale.png",
    "Lettuce" := "Lettuce.png",
    "Milk" := "Milk.png",
    "Oats" := "Oats.png",
    "Pasta large" := "Pasta-Lg.png",
    "Pasta small" := "Pasta-Sm.png",
    "Pumpkin seeds" := "Pumpkin-seeds.png",
    "Ravioli" := "Ravioli.png",
    "Rosemary" := "Rosemary.png",
    "Salmon" := "Salmon.png",
    "Salt" := "Salt.png",
    "Sesame seeds" := "Sesame-seeds.png",
    "Cardamom" := "Spice-Cardamom.png",
    "Cinnamon" := "Spice-Cinnamon.png",
    "Nutmeg" := "Spice-Nutmeg.png",
    "Paprika" := "Spice-Paprika.png",
    "Turmeric" := "Spice-turmeric.png",
    "Strawberries" := "Strawberries.png",
    "Sunflower seeds" := "Sunflower-seeds.png",
    "Thyme" := "Thyme.png",
    "Tomatoes" := "Tomatoes.png",
    "Tomatoes bowl" := "Tomatoes-bowl.png",
    "Tortillas" := "Tortillas.png"
  ]

  /** `getIngredientImageUrl(name)`: nothing for a blank name; the listed
      file for a listed (trimmed) name; otherwise the trimmed name, its
      whitespace runs turned to dashes, as a `.png` file. */
  function ImageUrl(ingredientName: string): (r: Option<string>)
    ensures r.None? <==> Blank(ingredientName)
    ensures r.Some? && Trim(ingredientName) in ImageFiles ==>
      r.value == ImageBase + "/" + ImageFiles[Trim(ingredientName)]
    ensures r.Some? && Trim(ingredientName) !in ImageFiles ==>
      r.value == ImageBase + "/" + Slug(Trim(ingredientName)) + ".png"
  {
    var name := Trim(ingredientName);
    if name == [] then None
    else if name in ImageFiles then Some(ImageBase + "/" + ImageFiles[name])
    else Some(ImageBase + "/" + Slug(name) + ".png")
  }

  /** Surrounding whitespace of the name does not change the picture. */
  lemma ImageUrlIgnoresSurroundingSpace(ingredientName: string)
    ensures ImageUrl(Trim(ingredientName)) == ImageUrl(ingredientName)
  {
    TrimOfTrimmed(Trim(ingredientName));
  }

  /** An unlisted name of two words gets the words joined by a dash. */
  lemma ImageUrlOfTwoWords(a: string, b: string)
    requires a != [] && b != [] && NoSpace(a) && NoSpace(b)
    requires a + " " + b !in ImageFiles
    ensures ImageUrl(a + " " + b) == Some(ImageBase + "/" + a + "-" + b + ".png")
  {
    var name := a + " " + b;
    SlugOfTwoWords(a, b);
    TrimOfTrimmed(name);
    Assoc(ImageBase + "/", a + "-", b);
    Assoc(ImageBase + "/", a, "-");
  }

  datatype Ingredient = Ingredient(id: int, name: string, baseUnit: string)

  /** An ingredient with its ranked products. */
  datatype IngredientGroup = IngredientGroup(ingredient: Ingredient, products: seq<ProductRow>)

  /** A product's name or vendor name contains `q`, case aside. */
  predicate ProductMatches(q: string, p: ProductRow) {
    Contains(Lower(p.name), q) || (p.vendorName.Some? && Contains(Lower(p.vendorName.value), q))
  }

  /** The ingredient's name or one of its products matches `q`. */
  function GroupMatches(q: string): IngredientGroup -> bool {
    (g: IngredientGroup) =>
      Contains(Lower(g.ingredient.name), q) || exists i :: 0 <= i < |g.products| && ProductMatches(q, g.products[i])
  }

  /** `filteredForSearch`: everything for a blank query; otherwise the
      groups whose ingredient, product or vendor name contains the trimmed,
      lower-cased query, in their order. */
  function FilteredForSearch(groups: seq<IngredientGroup>, query: string): (r: seq<IngredientGroup>)
    ensures Blank(query) ==> r == groups
    ensures SubseqOf(r, groups)
  {
    var q := SearchKey(query);
    if q == [] then
      SubseqOfSelf(groups);
      groups
    else
      FilterIsSubseq(GroupMatches(q), groups);
      Filter(GroupMatches(q), groups)
  }

  /** With a non-blank query a group is kept exactly when its ingredient,
      one of its products or one of their vendors matches. */
  lemma FilteredForSearchMembers(groups: seq<IngredientGroup>, query: string, g: IngredientGroup)
    requires !Blank(query)
    ensures g in FilteredForSearch(groups, query) <==>
      g in groups &&
      (Contains(Lower(g.ingredient.name), SearchKey(query)) ||
       exists i :: 0 <= i < |g.products| && ProductMatches(SearchKey(query), g.products[i]))
  {
    FilterMembers(GroupMatches(SearchKey(query)), groups);
  }

  function NotEggs(g: IngredientGroup): bool {
    g.ingredient.name != "Eggs"
  }

  /** "Chicken breast" without products gets the stand-in products; every
      other group is kept as it is. */
  function WithChickenDummy(g: IngredientGroup, dummy: seq<ProductRow>): (r: IngredientGroup)
    ensures r.ingredient == g.ingredient
    ensures r != g ==> g.ingredient.name == "Chicken breast" && g.products == [] && r.products == dummy
  {
    if g.ingredient.name == "Chicken breast" then
      g.(products := if |g.products| > 0 then g.products else dummy)
    else g
  }

  /** `allProducts`: the search result without "Eggs", "Chicken breast"
      given stand-in products when it has none, followed by the extra
      groups. */
  function AllProducts(filtered: seq<IngredientGroup>, dummy: seq<ProductRow>, extra: seq<IngredientGroup>)
    : (r: seq<IngredientGroup>)
    ensures |r| == |Filter(NotEggs, filtered)| + |extra|
    ensures r[|r| - |extra|..] == extra
    ensures forall i :: 0 <= i < |r| - |extra| ==>
      r[i] == WithChickenDummy(Filter(NotEggs, filtered)[i], dummy) && r[i].ingredient.name != "Eggs"
  {
    var kept := Filter(NotEggs, filtered);
    FilterMembers(NotEggs, filtered);
    assert forall i :: 0 <= i < |kept| ==> kept[i] in kept;
    Map((g: IngredientGroup) => WithChickenDummy(g, dummy), kept) + extra
  }

  /** Every group of the search result except "Eggs" appears in the list,
      given stand-in products only when it is a "Chicken breast" without
      any. */
  lemma AllProductsKeeps(filtered: seq<IngredientGroup>, dummy: seq<ProductRow>, extra: seq<IngredientGroup>, g: IngredientGroup)
    requires g in filtered && g.ingredient.name != "Eggs"
    ensures WithChickenDummy(g, dummy) in AllProducts(filtered, dummy, extra)
  {
    var kept := Filter(NotEggs, filtered);
    FilterMembers(NotEggs, filtered);
    var i :| 0 <= i < |kept| && kept[i] == g;
    var r := AllProducts(filtered, dummy, extra);
    assert r[i] == WithChickenDummy(g, dummy);
  }
}

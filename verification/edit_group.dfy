/** The group editor of the client: the form is filled from the group when
    the window opens, products can be removed, and saving hands back the
    group with the edited name, products and favourite flag. */
module EditGroup {
  import opened Wrappers
  import opened Seqs
  import opened Strings
  import opened ProductComparison

  /** The group being edited. */
  datatype Group = Group(id: string, ingredientName: string, products: seq<ProductRow>)

  /** The form: the name typed, the "Add to favorites" box, and the products
      still in the group. */
  datatype Editor = Editor(name: string, addToFavorites: bool, products: seq<ProductRow>)

  /** What saving hands back. */
  datatype SavePayload = SavePayload(id: string, ingredientName: string, products: seq<ProductRow>, addToFavorites: bool)

  /** The form before anything has been loaded into it. */
  const EmptyForm: Editor := Editor("", false, [])

  /** The effect run when the window, the group or the favourite flag
      changes: with a group and an open window the form is refilled from
      the group; otherwise it keeps what it holds. */
  function Reseed(e: Editor, group: Option<Group>, isFavorite: bool, open: bool): (r: Editor)
    ensures group.Some? && open ==> r.name == group.value.ingredientName && r.products == group.value.products
    ensures group.Some? && open ==> r.addToFavorites == isFavorite
    ensures !(group.Some? && open) ==> r == e
  {
    if group.Some? && open then Editor(group.value.ingredientName, isFavorite, group.value.products)
    else e
  }

  /** The test "the product's id is not `productId`". */
  function IdIsNot(productId: int): ProductRow -> bool {
    (p: ProductRow) => p.id != productId
  }

  /** `handleRemoveProduct`: every product with that id leaves the form;
      the others stay in their order. */
  function RemoveProduct(e: Editor, productId: int): (r: Editor)
    ensures r.name == e.name && r.addToFavorites == e.addToFavorites
    ensures SubseqOf(r.products, e.products)
    ensures forall p :: p in r.products <==> p in e.products && p.id != productId
  {
    FilterMembers(IdIsNot(productId), e.products);
    FilterIsSubseq(IdIsNot(productId), e.products);
    e.(products := Filter(IdIsNot(productId), e.products))
  }

  /** Removing the same product again changes nothing. */
  lemma RemoveProductTwice(e: Editor, productId: int)
    ensures RemoveProduct(RemoveProduct(e, productId), productId) == RemoveProduct(e, productId)
  {
    var kept := Filter(IdIsNot(productId), e.products);
    FilterMembers(IdIsNot(productId), e.products);
    assert forall i :: 0 <= i < |kept| ==> kept[i] in kept;
    FilterKeepsAll(IdIsNot(productId), kept);
  }

  /** Removing a product the form does not hold changes nothing. */
  lemma RemoveAbsentProduct(e: Editor, productId: int)
    requires forall i :: 0 <= i < |e.products| ==> e.products[i].id != productId
    ensures RemoveProduct(e, productId) == e
  {
    FilterKeepsAll(IdIsNot(productId), e.products);
  }

  /** Removals may happen in either order. */
  lemma RemoveProductsCommute(e: Editor, a: int, b: int)
    ensures RemoveProduct(RemoveProduct(e, a), b) == RemoveProduct(RemoveProduct(e, b), a)
  {
    FilterTwice(IdIsNot(a), IdIsNot(b), e.products);
    FilterTwice(IdIsNot(b), IdIsNot(a), e.products);
    FilterAgree(Both(IdIsNot(a), IdIsNot(b)), Both(IdIsNot(b), IdIsNot(a)), e.products);
  }

  /** `name.trim() || group.ingredientName`: the trimmed name typed, or the
      group's own name when nothing but blanks was typed. */
  function SavedName(name: string, original: string): (r: string)
    ensures Blank(name) ==> r == original
    ensures !Blank(name) ==> r != [] && IsTrimmed(r) && Trim(r) == Trim(name)
  {
    var t := Trim(name);
    if t == [] then original
    else
      TrimOfTrimmed(t);
      t
  }

  /** `handleSave`: nothing without a group; otherwise the group's id, the
      saved name, the products left in the form and the favourite box. */
  function Save(e: Editor, group: Option<Group>): (r: Option<SavePayload>)
    ensures r.None? <==> group.None?
    ensures r.Some? ==> r.value.id == group.value.id
    ensures r.Some? ==> r.value.products == e.products && r.value.addToFavorites == e.addToFavorites
    ensures r.Some? && Blank(e.name) ==> r.value.ingredientName == group.value.ingredientName
    ensures r.Some? && !Blank(e.name) ==> r.value.ingredientName == Trim(e.name)
  {
    match group
    case None => None
    case Some(g) => Some(SavePayload(g.id, SavedName(e.name, g.ingredientName), e.products, e.addToFavorites))
  }

  /** Opening a group and saving straight away hands the group back as it
      was, with the favourite flag it was opened with, when its name has no
      surrounding blanks. */
  lemma SaveUnedited(e: Editor, g: Group, isFavorite: bool)
    requires IsTrimmed(g.ingredientName)
    ensures Save(Reseed(e, Some(g), isFavorite, true), Some(g)) ==
      Some(SavePayload(g.id, g.ingredientName, g.products, isFavorite))
  {
    TrimOfTrimmed(g.ingredientName);
  }

  /** A product removed before saving is not in what is saved, and nothing
      else is lost. */
  lemma SaveAfterRemove(e: Editor, g: Group, productId: int)
    ensures var r := Save(RemoveProduct(e, productId), Some(g));
      r.Some? && (forall p :: p in r.value.products <==> p in e.products && p.id != productId)
  {
  }

  /** Saving only depends on the group's id and name, not on the products
      it was opened with. */
  lemma SaveIgnoresOpenedProducts(e: Editor, g: Group, ps: seq<ProductRow>)
    ensures Save(e, Some(g.(products := ps))) == Save(e, Some(g))
  {
  }
}

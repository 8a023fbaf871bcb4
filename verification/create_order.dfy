/** The create-order wizard of the client: pick a vendor, tick regulars and
    price-change products (or add products found by search), review the
    draft, go back, or close. Every handler is a transition of one state
    record. */
module CreateOrder {
  import opened Wrappers
  import opened Seqs
  import opened OrderLines

  datatype Step = VendorStep | ProductsStep | PreviewStep

  datatype Vendor = Vendor(id: string, name: string)

  /** A product with a recent price change; its `id` is what gets ticked. */
  datatype PriceChangeProduct = PriceChangeProduct(id: string, listing: Listing)

  /** The per-vendor lists the wizard shows, keyed by vendor id: the
      regulars and the price changes. */
  datatype Fixtures = Fixtures(recent: map<string, seq<Listing>>, priceChanges: map<string, seq<PriceChangeProduct>>)

  /** The wizard's state. Regulars are ticked by their position in the
      vendor's list, price changes by their id. */
  datatype Wizard = Wizard(
    step: Step,
    vendor: Option<Vendor>,
    draft: seq<LineItem>,
    searchOpen: bool,
    selectedRecent: set<int>,
    selectedPriceChanges: set<string>,
    searchAdded: seq<LineItem>)

  /** Nothing chosen: the state the wizard opens in. */
  function Initial(): Wizard {
    Wizard(VendorStep, None, [], false, {}, {}, [])
  }

  /** No draft, nothing ticked and nothing added from search. */
  predicate Cleared(w: Wizard) {
    w.draft == [] && w.selectedRecent == {} && w.selectedPriceChanges == {} && w.searchAdded == []
  }

  /** `handleClose`: back to the vendor step with no vendor and nothing
      chosen. */
  function Close(w: Wizard): (r: Wizard)
    ensures r.step == VendorStep && r.vendor == None && !r.searchOpen && Cleared(r)
  {
    Initial()
  }

  /** Closing forgets everything: it leads to one state from any state. */
  lemma CloseForgets(w1: Wizard, w2: Wizard)
    ensures Close(w1) == Close(w2) == Initial()
  {
  }

  /** `handleSelectVendor(vendor)`: the products step for that vendor, with
      nothing chosen. The search window is left as it is. */
  function SelectVendor(w: Wizard, v: Vendor): (r: Wizard)
    ensures r.step == ProductsStep && r.vendor == Some(v) && Cleared(r)
    ensures r.searchOpen == w.searchOpen
  {
    Wizard(ProductsStep, Some(v), [], w.searchOpen, {}, {}, [])
  }

  /** `handleBackToProducts`: the products step for the same vendor, with
      nothing chosen. */
  function BackToProducts(w: Wizard): (r: Wizard)
    ensures r.step == ProductsStep && r.vendor == w.vendor && Cleared(r)
    ensures r.searchOpen == w.searchOpen
  {
    w.(step := ProductsStep, draft := [], selectedRecent := {}, selectedPriceChanges := {}, searchAdded := [])
  }

  /** Going back from the preview and choosing the vendor again both start
      the choice over: only the vendor tells them apart. */
  lemma BackIsReselect(w: Wizard, v: Vendor)
    requires w.vendor == Some(v)
    ensures BackToProducts(w) == SelectVendor(w, v)
  {
  }

  /** `setSearchModalOpen(true)`, the "Search all products" link. */
  function OpenSearch(w: Wizard): (r: Wizard)
    ensures r.searchOpen && r.(searchOpen := w.searchOpen) == w
  {
    w.(searchOpen := true)
  }

  /** `handleAddFromSearch(items)`: the items go after those already added
      from search, and the search window closes. */
  function AddFromSearch(w: Wizard, items: seq<LineItem>): (r: Wizard)
    ensures |r.searchAdded| == |w.searchAdded| + |items|
    ensures r.searchAdded[..|w.searchAdded|] == w.searchAdded
    ensures r.searchAdded[|w.searchAdded|..] == items
    ensures !r.searchOpen
    ensures r.(searchAdded := w.searchAdded, searchOpen := w.searchOpen) == w
  {
    w.(searchAdded := w.searchAdded + items, searchOpen := false)
  }

  /** Two additions from search are one addition of both lists. */
  lemma AddFromSearchTwice(w: Wizard, a: seq<LineItem>, b: seq<LineItem>)
    ensures AddFromSearch(AddFromSearch(w, a), b) == AddFromSearch(w, a + b)
  {
    assert w.searchAdded + a + b == w.searchAdded + (a + b);
  }

  /** `toggleRecent(i)`. */
  function ToggleRecent(w: Wizard, i: int): (r: Wizard)
    ensures i in r.selectedRecent <==> i !in w.selectedRecent
    ensures forall j :: j != i ==> (j in r.selectedRecent <==> j in w.selectedRecent)
    ensures r.(selectedRecent := w.selectedRecent) == w
  {
    w.(selectedRecent := Toggle(w.selectedRecent, i))
  }

  /** `togglePriceChange(id)`. */
  function TogglePriceChange(w: Wizard, id: string): (r: Wizard)
    ensures id in r.selectedPriceChanges <==> id !in w.selectedPriceChanges
    ensures forall j :: j != id ==> (j in r.selectedPriceChanges <==> j in w.selectedPriceChanges)
    ensures r.(selectedPriceChanges := w.selectedPriceChanges) == w
  {
    w.(selectedPriceChanges := Toggle(w.selectedPriceChanges, id))
  }

  /** Ticking the same box twice leaves the wizard as it was. */
  lemma ToggleTwiceRestores(w: Wizard, i: int, id: string)
    ensures ToggleRecent(ToggleRecent(w, i), i) == w
    ensures TogglePriceChange(TogglePriceChange(w, id), id) == w
  {
    ToggleTwice(w.selectedRecent, i);
    ToggleTwice(w.selectedPriceChanges, id);
  }

  /** The regulars of the chosen vendor; none without a vendor or for a
      vendor without a list. */
  function RecentProducts(fx: Fixtures, w: Wizard): seq<Listing> {
    if w.vendor.Some? && w.vendor.value.id in fx.recent then fx.recent[w.vendor.value.id] else []
  }

  /** The price changes of the chosen vendor, likewise. */
  function PriceChanges(fx: Fixtures, w: Wizard): seq<PriceChangeProduct> {
    if w.vendor.Some? && w.vendor.value.id in fx.priceChanges then fx.priceChanges[w.vendor.value.id] else []
  }

  /** An element with its position. */
  datatype Indexed<T> = Indexed(index: int, value: T)

  function IndexOf<T>(x: Indexed<T>): int {
    x.index
  }

  function ValueOf<T>(x: Indexed<T>): T {
    x.value
  }

  /** The elements of `s` with their positions. */
  function Enumerate<T>(s: seq<T>): (r: seq<Indexed<T>>)
    ensures |r| == |s|
    ensures forall i :: 0 <= i < |s| ==> r[i] == Indexed(i, s[i])
  {
    seq(|s|, i requires 0 <= i < |s| => Indexed(i, s[i]))
  }

  /** `s.filter((_, i) => sel.has(i))`: the elements at the chosen
      positions, in list order. */
  function PickIndices<T(!new)>(s: seq<T>, sel: set<int>): seq<T> {
    Map(ValueOf, Filter(KeyIn(IndexOf, sel), Enumerate(s)))
  }

  /** The chosen positions of a list, counted. */
  lemma PickIndicesCount<T(!new)>(s: seq<T>, sel: set<int>)
    requires forall i :: i in sel ==> 0 <= i < |s|
    ensures |PickIndices(s, sel)| == |sel|
  {
    var e := Enumerate(s);
    assert DistinctKeys(IndexOf, e);
    forall k | k in sel
      ensures HasKey(IndexOf, e, k)
    {
      assert IndexOf(e[k]) == k;
    }
    SelectByKeyCount(IndexOf, e, sel);
  }

  function PriceChangeId(p: PriceChangeProduct): string {
    p.id
  }

  function ListingOf(p: PriceChangeProduct): Listing {
    p.listing
  }

  /** The price changes whose id is ticked, in list order. */
  function PickPriceChanges(ps: seq<PriceChangeProduct>, sel: set<string>): seq<Listing> {
    Map(ListingOf, Filter(KeyIn(PriceChangeId, sel), ps))
  }

  /** `handleReviewOrder`: the draft is the ticked regulars, then the ticked
      price changes, each as a line of quantity one, then the items added
      from search; the wizard moves to the preview. */
  function ReviewOrder(fx: Fixtures, w: Wizard): (r: Wizard)
    ensures r.step == PreviewStep
    ensures r.(step := w.step, draft := w.draft) == w
    ensures DraftOf(r.draft, PickIndices(RecentProducts(fx, w), w.selectedRecent),
      PickPriceChanges(PriceChanges(fx, w), w.selectedPriceChanges), w.searchAdded)
  {
    var recent := PickIndices(RecentProducts(fx, w), w.selectedRecent);
    var changes := PickPriceChanges(PriceChanges(fx, w), w.selectedPriceChanges);
    DraftLayout(recent, changes, w.searchAdded);
    w.(step := PreviewStep, draft := Map(Single, recent) + Map(Single, changes) + w.searchAdded)
  }

  /** `d` is the draft a review builds: a line of quantity one for each
      ticked regular, then one for each ticked price change, then the lines
      added from search. */
  predicate DraftOf(d: seq<LineItem>, recent: seq<Listing>, changes: seq<Listing>, added: seq<LineItem>) {
    && |d| == |recent| + |changes| + |added|
    && (forall i :: 0 <= i < |recent| ==> d[i] == Single(recent[i]))
    && (forall i :: |recent| <= i < |recent| + |changes| ==> d[i] == Single(changes[i - |recent|]))
    && d[|recent| + |changes|..] == added
  }

  /** Where each part of a review's draft sits. */
  lemma DraftLayout(recent: seq<Listing>, changes: seq<Listing>, added: seq<LineItem>)
    ensures DraftOf(Map(Single, recent) + Map(Single, changes) + added, recent, changes, added)
  {
    ConcatParts(Map(Single, recent), Map(Single, changes), added);
  }

  /** Reviewing and going back is going back: the draft of a review is
      thrown away. */
  lemma ReviewThenBack(fx: Fixtures, w: Wizard)
    ensures BackToProducts(ReviewOrder(fx, w)) == BackToProducts(w)
  {
  }

  /** `productsStepItemCount`: how many boxes are ticked plus how many items
      came from search. */
  function ItemCount(w: Wizard): nat {
    |w.selectedRecent| + |w.selectedPriceChanges| + |w.searchAdded|
  }

  /** The "Review order" button is disabled. */
  predicate ReviewDisabled(w: Wizard) {
    ItemCount(w) == 0
  }

  /** Within each vendor's list, price-change ids are distinct. */
  predicate DistinctPriceChangeIds(fx: Fixtures) {
    forall v :: v in fx.priceChanges ==> DistinctKeys(PriceChangeId, fx.priceChanges[v])
  }

  /** Only positions of listed regulars and ids of listed price changes are
      ticked: what the checkboxes of the products step can produce. */
  predicate WellSelected(fx: Fixtures, w: Wizard) {
    && (forall i :: i in w.selectedRecent ==> 0 <= i < |RecentProducts(fx, w)|)
    && (forall id :: id in w.selectedPriceChanges ==> HasKey(PriceChangeId, PriceChanges(fx, w), id))
  }

  /** The draft of a review has one line per ticked box and per item added
      from search, so the review button is disabled exactly when the draft
      would be empty. */
  lemma DraftMatchesCount(fx: Fixtures, w: Wizard)
    requires DistinctPriceChangeIds(fx) && WellSelected(fx, w)
    ensures |ReviewOrder(fx, w).draft| == ItemCount(w)
    ensures ReviewDisabled(w) <==> ReviewOrder(fx, w).draft == []
  {
    PickIndicesCount(RecentProducts(fx, w), w.selectedRecent);
    SelectByKeyCount(PriceChangeId, PriceChanges(fx, w), w.selectedPriceChanges);
  }

  /** The total of the preview is the price of each ticked product once,
      plus the total of the items added from search. */
  lemma ReviewTotal(fx: Fixtures, w: Wizard)
    ensures Total(ReviewOrder(fx, w).draft)
         == PriceSum(PickIndices(RecentProducts(fx, w), w.selectedRecent))
          + PriceSum(PickPriceChanges(PriceChanges(fx, w), w.selectedPriceChanges))
          + Total(w.searchAdded)
  {
    var a := PickIndices(RecentProducts(fx, w), w.selectedRecent);
    var b := PickPriceChanges(PriceChanges(fx, w), w.selectedPriceChanges);
    TotalConcat(Map(Single, a) + Map(Single, b), w.searchAdded);
    TotalConcat(Map(Single, a), Map(Single, b));
    TotalOfSingles(a);
    TotalOfSingles(b);
  }

  /** Choosing a vendor, going back and closing disable the review, and the
      ticking of a listed box keeps the selection well formed. */
  lemma TransitionsKeepSelection(fx: Fixtures, w: Wizard, v: Vendor, i: int, id: string)
    ensures ReviewDisabled(SelectVendor(w, v)) && WellSelected(fx, SelectVendor(w, v))
    ensures ReviewDisabled(BackToProducts(w)) && ReviewDisabled(Close(w))
    ensures WellSelected(fx, w) && 0 <= i < |RecentProducts(fx, w)| ==> WellSelected(fx, ToggleRecent(w, i))
    ensures WellSelected(fx, w) && HasKey(PriceChangeId, PriceChanges(fx, w), id) ==>
      WellSelected(fx, TogglePriceChange(w, id))
  {
  }
}

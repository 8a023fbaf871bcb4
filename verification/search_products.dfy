/** The product search window of the create-order wizard: the vendor's
    catalogue numbered by position, a case-insensitive name filter, ticking
    entries, and adding the ticked entries to the order. */
module SearchProducts {
  import opened Seqs
  import opened Strings
  import opened OrderLines

  /** A catalogue product with its position as id. */
  datatype Entry = Entry(id: int, product: Listing)

  /** The window's state: the query typed and the ticked ids. */
  datatype Search = Search(query: string, selected: set<int>)

  /** `catalogWithIds`: the vendor's catalogue, each entry numbered by its
      position; an unknown vendor has an empty catalogue. */
  function CatalogWithIds(catalogs: map<string, seq<Listing>>, vendorId: string): (r: seq<Entry>)
    ensures vendorId !in catalogs ==> r == []
    ensures vendorId in catalogs ==> |r| == |catalogs[vendorId]|
    ensures vendorId in catalogs ==> forall i :: 0 <= i < |r| ==> r[i] == Entry(i, catalogs[vendorId][i])
  {
    if vendorId in catalogs then
      var c := catalogs[vendorId];
      seq(|c|, i requires 0 <= i < |c| => Entry(i, c[i]))
    else []
  }

  function EntryId(e: Entry): int {
    e.id
  }

  /** The entry's lower-cased name contains `q`. */
  function NameMatches(q: string): Entry -> bool {
    (e: Entry) => Contains(Lower(e.product.productName), q)
  }

  /** `filtered`: with a blank query every entry; otherwise the entries whose
      lower-cased name contains the trimmed, lower-cased query, in catalogue
      order. */
  function Filtered(entries: seq<Entry>, query: string): (r: seq<Entry>)
    ensures Blank(query) ==> r == entries
    ensures SubseqOf(r, entries)
  {
    if Blank(query) then
      SubseqOfSelf(entries);
      entries
    else
      FilterIsSubseq(NameMatches(SearchKey(query)), entries);
      Filter(NameMatches(SearchKey(query)), entries)
  }

  /** What a query keeps: with a non-blank query, exactly the entries whose
      name contains it, case aside. */
  lemma FilteredMembers(entries: seq<Entry>, query: string, e: Entry)
    requires !Blank(query)
    ensures e in Filtered(entries, query) <==> e in entries && Contains(Lower(e.product.productName), SearchKey(query))
  {
    FilterMembers(NameMatches(SearchKey(query)), entries);
  }

  /** Queries that differ only in case and surrounding blanks keep the same
      entries. */
  lemma FilteredIgnoresCase(entries: seq<Entry>, query: string)
    ensures Filtered(entries, SearchKey(query)) == Filtered(entries, query)
  {
    SearchKeyIdempotent(query);
    if Blank(query) {
      assert SearchKey(query) == [];
    }
  }

  /** `toggleProduct(id)`. */
  function ToggleProduct(s: Search, id: int): (r: Search)
    ensures r.query == s.query
    ensures id in r.selected <==> id !in s.selected
    ensures forall j :: j != id ==> (j in r.selected <==> j in s.selected)
  {
    s.(selected := Toggle(s.selected, id))
  }

  /** Ticking the same entry twice changes nothing. */
  lemma ToggleProductTwice(s: Search, id: int)
    ensures ToggleProduct(ToggleProduct(s, id), id) == s
  {
    ToggleTwice(s.selected, id);
  }

  /** The line an entry becomes: quantity one at the entry's price. */
  function EntryLine(e: Entry): LineItem {
    Single(e.product)
  }

  /** `handleAddToOrder`: the ticked entries of the whole catalogue, those
      hidden by the query included, in catalogue order and as lines of
      quantity one; the window is reset. */
  function AddToOrder(s: Search, entries: seq<Entry>): (r: (Search, seq<LineItem>))
    ensures r.0 == Search("", {})
    ensures |r.1| <= |entries|
    ensures forall i :: 0 <= i < |r.1| ==> r.1[i].quantity == 1.0 && r.1[i].lineTotal == r.1[i].unitPrice
  {
    (Search("", {}), Map(EntryLine, Filter(KeyIn(EntryId, s.selected), entries)))
  }

  /** `handleClose`: the window is reset and nothing is added. */
  function Close(s: Search): (r: Search)
    ensures r.query == [] && r.selected == {}
  {
    Search("", {})
  }

  /** Closing and adding leave the window in the same state, and what is
      added does not depend on the query. */
  lemma AddIgnoresQuery(s: Search, entries: seq<Entry>, query: string)
    ensures AddToOrder(s, entries).0 == Close(s)
    ensures AddToOrder(s.(query := query), entries) == AddToOrder(s, entries)
  {
  }

  /** `items` are the lines of the catalogue `c` at the positions `idx`,
      which are the ticked positions `sel` in increasing order. */
  ghost predicate LinesAt(items: seq<LineItem>, c: seq<Listing>, sel: set<int>, idx: seq<int>) {
    && |idx| == |items|
    && (forall a, b :: 0 <= a < b < |idx| ==> idx[a] < idx[b])
    && (forall i :: i in sel <==> i in idx)
    && (forall k :: 0 <= k < |idx| ==> 0 <= idx[k] < |c| && items[k] == Single(c[idx[k]]))
  }

  /** Each entry the ticks keep is a ticked catalogue entry at its own
      position. */
  lemma PickedEntries(c: seq<Listing>, entries: seq<Entry>, sel: set<int>)
    requires |entries| == |c| && forall i :: 0 <= i < |c| ==> entries[i] == Entry(i, c[i])
    ensures var picked := Filter(KeyIn(EntryId, sel), entries);
      forall k :: 0 <= k < |picked| ==>
        picked[k].id in sel && 0 <= picked[k].id < |c| && picked[k] == Entry(picked[k].id, c[picked[k].id])
  {
    var picked := Filter(KeyIn(EntryId, sel), entries);
    FilterMembers(KeyIn(EntryId, sel), entries);
    forall k | 0 <= k < |picked|
      ensures picked[k].id in sel && 0 <= picked[k].id < |c| && picked[k] == Entry(picked[k].id, c[picked[k].id])
    {
      assert picked[k] in picked;
    }
  }

  /** Every ticked position of the catalogue is among the kept ids. */
  lemma PickedCovers(c: seq<Listing>, entries: seq<Entry>, sel: set<int>)
    requires |entries| == |c| && forall i :: 0 <= i < |c| ==> entries[i] == Entry(i, c[i])
    requires forall i :: i in sel ==> 0 <= i < |c|
    ensures forall i :: i in sel ==> i in Map(EntryId, Filter(KeyIn(EntryId, sel), entries))
  {
    var picked := Filter(KeyIn(EntryId, sel), entries);
    var idx := Map(EntryId, picked);
    FilterMembers(KeyIn(EntryId, sel), entries);
    forall i | i in sel
      ensures i in idx
    {
      assert entries[i] in picked;
      var k :| 0 <= k < |picked| && picked[k] == entries[i];
      assert idx[k] == i;
    }
  }

  /** The ticked entries of a catalogue, as lines, are its lines at the
      ticked positions in increasing order. */
  lemma PickedInOrder(c: seq<Listing>, entries: seq<Entry>, sel: set<int>)
    requires |entries| == |c| && forall i :: 0 <= i < |c| ==> entries[i] == Entry(i, c[i])
    requires forall i :: i in sel ==> 0 <= i < |c|
    ensures var picked := Filter(KeyIn(EntryId, sel), entries);
      LinesAt(Map(EntryLine, picked), c, sel, Map(EntryId, picked))
  {
    var picked := Filter(KeyIn(EntryId, sel), entries);
    var idx := Map(EntryId, picked);
    PickedEntries(c, entries, sel);
    PickedCovers(c, entries, sel);
    assert IncreasingKeys(EntryId, entries);
    FilterKeepsIncreasing(KeyIn(EntryId, sel), EntryId, entries);
  }

  /** From a catalogue, one line per ticked position, each the product at
      that position, in catalogue order: the ticked positions, listed in
      increasing order, are exactly the positions the lines come from. */
  lemma AddFromCatalog(catalogs: map<string, seq<Listing>>, vendorId: string, s: Search)
    requires forall i :: i in s.selected ==> 0 <= i < |CatalogWithIds(catalogs, vendorId)|
    ensures var items := AddToOrder(s, CatalogWithIds(catalogs, vendorId)).1;
      && |items| == |s.selected|
      && (vendorId !in catalogs ==> items == [])
      && (vendorId in catalogs ==> exists idx :: LinesAt(items, catalogs[vendorId], s.selected, idx))
  {
    var entries := CatalogWithIds(catalogs, vendorId);
    assert DistinctKeys(EntryId, entries);
    forall i | i in s.selected
      ensures HasKey(EntryId, entries, i)
    {
      assert EntryId(entries[i]) == i;
    }
    SelectByKeyCount(EntryId, entries, s.selected);
    if vendorId in catalogs {
      var picked := Filter(KeyIn(EntryId, s.selected), entries);
      PickedInOrder(catalogs[vendorId], entries, s.selected);
      assert LinesAt(AddToOrder(s, entries).1, catalogs[vendorId], s.selected, Map(EntryId, picked));
    }
  }
}

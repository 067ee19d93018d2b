/** The synthetic item source of the infinite-scroll demo: for a page index it
    produces one fixed-size batch of item records. Titles and descriptions are
    template text over the id and are not modelled; the category labels and
    the colour swatches are modelled as enumerations in their list order. */
module Items {

  /** Number of items in one batch. */
  const PageSize: nat := 10

  /** The last page index that is loaded (pages 0 .. LastPage, five in all). */
  const LastPage: nat := 4

  datatype Category = Technology | Design | Business | Lifestyle | Entertainment

  datatype Color = Blue | Violet | Pink | Amber | Emerald

  /** The category list, in the order the source declares it. */
  const Categories: seq<Category> := [Technology, Design, Business, Lifestyle, Entertainment]

  /** The colour list, in the order the source declares it. */
  const Colors: seq<Color> := [Blue, Violet, Pink, Amber, Emerald]

  datatype Item = Item(id: nat, category: Category, color: Color)

  /** The ids of a sequence of items, in order. */
  function Ids(s: seq<Item>): seq<nat>
  {
    seq(|s|, k requires 0 <= k < |s| => s[k].id)
  }

  /** The record for offset `i` of page `page`. */
  function MakeItem(page: nat, i: nat): Item
  {
    Item(page * PageSize + i + 1, Categories[i % |Categories|], Colors[i % |Colors|])
  }

  /** One batch: exactly PageSize items whose ids continue where the
      previous page stopped, one apart. */
  function GenerateItems(page: nat): (r: seq<Item>)
    ensures |r| == PageSize
    ensures forall i :: 0 <= i < |r| ==> r[i].id == page * PageSize + i + 1
  {
    seq(PageSize, i requires 0 <= i < PageSize => MakeItem(page, i))
  }

  /** The palette position of a generated item repeats with period five:
      two offsets of a batch share a category, and likewise a colour, exactly
      when they are congruent modulo five. */
  lemma {:induction false} PaletteRepeats(page: nat, i: nat, j: nat)
    requires i < PageSize && j < PageSize
    ensures GenerateItems(page)[i].category == GenerateItems(page)[j].category <==> i % 5 == j % 5
    ensures GenerateItems(page)[i].color == GenerateItems(page)[j].color <==> i % 5 == j % 5
  {
    var r := GenerateItems(page);
    assert r[i] == MakeItem(page, i) && r[j] == MakeItem(page, j);
    CategoriesDistinct(i % 5, j % 5);
  }

  /** The two palettes list five different entries each. */
  lemma CategoriesDistinct(a: nat, b: nat)
    requires a < 5 && b < 5
    ensures Categories[a] == Categories[b] <==> a == b
    ensures Colors[a] == Colors[b] <==> a == b
  {
  }

  /** Where an id comes from: its page and its offset within that page. */
  function Origin(id: nat): (pageAndOffset: (nat, nat))
    requires id >= 1
    ensures pageAndOffset.1 < PageSize
    ensures GenerateItems(pageAndOffset.0)[pageAndOffset.1].id == id
  {
    ((id - 1) / PageSize, (id - 1) % PageSize)
  }

  /** Every generated id leads back to the page and offset that made it. */
  lemma {:induction false} OriginOfGenerated(page: nat, i: nat)
    requires i < PageSize
    ensures Origin(GenerateItems(page)[i].id) == (page, i)
  {
    var id := GenerateItems(page)[i].id;
    assert id - 1 == page * PageSize + i;
    DivModUnique(page, i, id - 1);
  }

  lemma {:induction false} DivModUnique(q: nat, r: nat, n: nat)
    requires r < PageSize && n == q * PageSize + r
    ensures n / PageSize == q && n % PageSize == r
  {
  }

  /** Batches of different pages share no id. */
  lemma {:induction false} PagesDisjoint(p: nat, q: nat)
    requires p != q
    ensures forall i, j :: 0 <= i < PageSize && 0 <= j < PageSize ==>
              GenerateItems(p)[i].id != GenerateItems(q)[j].id
  {
    forall i, j | 0 <= i < PageSize && 0 <= j < PageSize
      ensures GenerateItems(p)[i].id != GenerateItems(q)[j].id
    {
      OriginOfGenerated(p, i);
      OriginOfGenerated(q, j);
    }
  }

  /** All items of pages 0 .. n-1, concatenated in fetch order. */
  function Batches(n: nat): seq<Item>
  {
    if n == 0 then [] else Batches(n - 1) + GenerateItems(n - 1)
  }

  /** The accumulated list of n pages has n * PageSize items and item k has
      id k + 1: no gaps, no duplicates, ascending. */
  lemma {:induction false} BatchesIds(n: nat)
    ensures |Batches(n)| == n * PageSize
    ensures forall k :: 0 <= k < |Batches(n)| ==> Batches(n)[k].id == k + 1
  {
    if n > 0 {
      BatchesIds(n - 1);
      var prev, batch := Batches(n - 1), GenerateItems(n - 1);
      forall k | 0 <= k < |Batches(n)| ensures Batches(n)[k].id == k + 1 {
        if k >= |prev| {
          assert Batches(n)[k] == batch[k - |prev|];
        } else {
          assert Batches(n)[k] == prev[k];
        }
      }
    }
  }

  /** Loading more pages only appends: the list for m pages is a prefix of
      the list for any n >= m pages. */
  lemma {:induction false} BatchesPrefix(m: nat, n: nat)
    requires m <= n
    ensures Batches(m) <= Batches(n)
  {
    if m < n {
      BatchesPrefix(m, n - 1);
    }
  }

  /** The five pages of a full session carry exactly the ids 1 .. 50. */
  lemma AllPagesIds()
    ensures Ids(Batches(LastPage + 1)) == seq(50, k requires 0 <= k < 50 => k + 1)
  {
    BatchesIds(LastPage + 1);
  }
}

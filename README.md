# Infinite-scroll pager

A model of the paging logic of a small React demo that shows an
infinitely scrolling list (`src/App.jsx`). The model has two modules.

- `Items` (`items.dfy`) models the synthetic item source `generateItems`.
  For a page index it returns a batch of ten records. The record at offset
  `i` has id `page * 10 + i + 1`, and its category and colour are taken
  from five-entry lists at position `i % 5`. `Batches(n)` is what the
  component has accumulated after pages `0 .. n-1` have loaded.
- `Paging` (`pager.dfy`) models the component state as a class `Pager`
  with the four state fields `items`, `page`, `isLoading` and `hasMore`.
  The async `loadMoreItems` is split at its one `await`.
  `BeginLoad` is the guard plus `isLoading := true`.
  `CompleteLoad` is what runs after the delay: append the page's batch,
  advance `page`, latch `hasMore` off after the last page, clear
  `isLoading`. `LoadMore` runs both back to back.
  `OnIntersect` is the visibility callback with its guard.
  `Run` and `ScrollSession` mount the component (one unconditional load)
  and drive it with a sequence of events.

The class invariant `Pager.Valid()` says two things. First, `items` is
exactly `Batches(page)`, so `|items| == page * 10` and item `k` has id
`k + 1`. Second, `hasMore` holds exactly while `page <= 4`. Every method
keeps it. `hasMore` only ever goes from true to false.

`loadMoreItems` returns early only while `isLoading` (`src/App.jsx:97`);
only the visibility callback (`src/App.jsx:81`) checks `hasMore`. So
`BeginLoad` and `LoadMore` ignore `hasMore`, and a direct `LoadMore` after
the last page would load page 5. The only unguarded call is the mount load,
so no session the component can run (`Run`, `ScrollSession`) starts a load
past the last page.

## Model

| member | source | states |
|---|---|---|
| `Items.GenerateItems` | src/App.jsx:48-62 | A batch always has exactly 10 items, whatever the page. The item at offset `i` has id `page * 10 + i + 1`. |
| `Items.PaletteRepeats` | src/App.jsx:49-59 | Two offsets of a batch get the same category exactly when they are equal modulo 5. The same holds for the colour. So the choice repeats with period 5 and the five entries are all used. |
| `Items.Origin` | src/App.jsx:53 | For every id `>= 1`, `Origin` gives a page and an offset below 10 whose generated item has that id. This inverts the id formula. |
| `Items.OriginOfGenerated` | src/App.jsx:53 | Applying `Origin` to the id of any generated item gives back the page and offset that produced it. |
| `Items.PagesDisjoint` | src/App.jsx:53 | Batches of two different pages share no id. |
| `Items.BatchesIds` | src/App.jsx:104-106 | After `n` pages have loaded, the list has `n * 10` items and item `k` has id `k + 1`. So there are no gaps and no duplicates, and ids ascend. |
| `Items.BatchesPrefix` | src/App.jsx:105 | The list is append-only. The list after `m` pages is a prefix of the list after any `n >= m` pages. |
| `Items.AllPagesIds` | src/App.jsx:104-111 | After the five pages `0 .. 4`, the ids are exactly `1 .. 50`, in order. |
| `Paging.Pager.constructor` | src/App.jsx:65-68 | The initial state is no items, page 0, not loading, more to come. It satisfies the invariant. |
| `Paging.Pager.BeginLoad` | src/App.jsx:96-99 | A call while a load is in flight changes nothing and reports that no load started. Otherwise it sets `isLoading` and leaves the other fields alone. |
| `Paging.Pager.CompleteLoad` | src/App.jsx:104-113 | The old items stay as a prefix and are followed by exactly `GenerateItems(old page)`. `page` goes up by one. `hasMore` becomes false exactly when the page before the increment is `>= 4`, and it is never set back. `isLoading` is cleared. The invariant is kept. |
| `Paging.Pager.LoadMore` | src/App.jsx:96-114 | With a load in flight, nothing changes. Otherwise exactly one page is loaded, with the effects of `CompleteLoad`, and the load is settled. |
| `Paging.Pager.OnIntersect` | src/App.jsx:79-83 | A load starts exactly when the sentinel is visible, nothing is in flight and `hasMore` holds. Otherwise the state is unchanged. |
| `Paging.Run` | src/App.jsx:72-114 | Start with the mount load, then take any sequence of visibility signals and delay expiries. At most one load is ever in flight: the number started is the number completed, plus one if a load is in flight. No load starts past page 4. The final list holds `page * 10` items with ids `1 ..`, consecutive. |
| `Paging.ScrollSession` | src/App.jsx:72-114 | Start with the settled mount load, then apply a signal sequence in which each accepted signal's load settles. The session ends at page `min(1 + accepted signals, 5)`. Once at least four signals are accepted, `hasMore` is false and the ids are exactly `1 .. 50`. The page stays at 5 however many more signals follow. |

## Left out

- Rendering (`ItemCard`, `Spinner`, the header counter, the loader region and the explanatory panel, `src/App.jsx:4-45`, `116-162`): presentation only, it projects the state and changes nothing.
- The `IntersectionObserver` itself, its `rootMargin` of 100px and the `observe`/`disconnect` lifecycle (`src/App.jsx:77-93`): a browser API. Only its boolean `isIntersecting` input to the guard is modelled, as `OnIntersect`'s parameter and as the `Intersect` event.
- The one-second `setTimeout` delay (`src/App.jsx:102`): timing. It is the split between `BeginLoad` and `CompleteLoad`, and the `Settle` event ends it.
- React hook semantics (`useState`, `useEffect`, `useRef`, update batching, callbacks reading state from the render they were created in): the state is one object, updated in program order.
- Item titles, descriptions and the hex colour literals (`src/App.jsx:49-50`, `56`, `58`): template text over the id and fixed colour strings. Categories and colours are enumerations in list order; titles and descriptions are not modelled.
- No failure path: the source's item source never fails, so the model has no error state either.

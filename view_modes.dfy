/**
 * The view controls both pages share: the grid density button, the sort key
 * button and the sort direction button. Each is a small cyclic state machine.
 */
module ViewModes {
  import opened NftGrid

  /** The `gridMode` state: 2, 3 or 4 columns, or the list view. */
  datatype GridMode = Two | Three | Four | List

  /** `cycleGridMode`: 2 → 3 → 4 → list → 2. */
  function NextGridMode(m: GridMode): (r: GridMode)
    ensures r != m
    ensures m == List <==> r == Two
  {
    match m
    case Two => Three
    case Three => Four
    case Four => List
    case List => Two
  }

  /** Four presses return to the start and no fewer do: every mode is visited. */
  lemma GridModeCycle(m: GridMode)
    ensures NextGridMode(NextGridMode(NextGridMode(NextGridMode(m)))) == m
    ensures NextGridMode(NextGridMode(m)) != m
    ensures NextGridMode(NextGridMode(NextGridMode(m))) != m
  {
  }

  /** `cycleSortMode`: date → name → collection → floor → date. */
  function NextSortKey(k: SortKey): (r: SortKey)
    ensures r != k
    ensures k == Floor <==> r == Date
  {
    match k
    case Date => Name
    case Name => Collection
    case Collection => Floor
    case Floor => Date
  }

  /** Four presses return to the start and no fewer do. */
  lemma SortKeyCycle(k: SortKey)
    ensures NextSortKey(NextSortKey(NextSortKey(NextSortKey(k)))) == k
    ensures NextSortKey(NextSortKey(k)) != k
    ensures NextSortKey(NextSortKey(NextSortKey(k))) != k
  {
  }

  /** `toggleSortDirection`. */
  function FlipDirection(d: SortDir): (r: SortDir)
    ensures r != d
  {
    if d == Asc then Desc else Asc
  }

  /** Toggling twice is no change. */
  lemma FlipTwice(d: SortDir)
    ensures FlipDirection(FlipDirection(d)) == d
  {
  }
}

/** The generic cons-list layer of the note codec: an ordered array becomes a
    chain of cells, each with `rdf:first` naming the element's record and
    `rdf:rest` naming the next cell or `rdf:nil` (section 5.2 "RDF Collections"
    of W3C RDF Schema 1.1). Cells are named from an index path. */
module Collections {
  import opened Wrappers
  import opened Rdf
  import opened Vocab
  import Js

  /** An index path from the root of the document, e.g. [0, 2]. */
  type Path = seq<nat>

  /** `path.join("-")` */
  function JoinPath(path: Path): string {
    if |path| == 0 then ""
    else if |path| == 1 then Js.NatText(path[0])
    else Js.NatText(path[0]) + "-" + JoinPath(path[1..])
  }

  function CellName(path: Path): string {
    "li-" + JoinPath(path)
  }

  function CellUrl(path: Path): string {
    LOCAL_NODE + CellName(path)
  }

  /** The path of the i-th element of a list whose first element is at path:
      the last index moves on by i. */
  function PathAt(path: Path, i: nat): (r: Path)
    requires |path| > 0
    ensures |r| == |path| && r[..|r| - 1] == path[..|path| - 1] && r[|r| - 1] == path[|path| - 1] + i
  {
    path[..|path| - 1] + [path[|path| - 1] + i]
  }

  lemma PathAtZero(path: Path)
    requires |path| > 0
    ensures PathAt(path, 0) == path
  {
    assert path == path[..|path| - 1] + [path[|path| - 1]];
  }

  lemma PathAtPathAt(path: Path, i: nat, j: nat)
    requires |path| > 0
    ensures PathAt(PathAt(path, i), j) == PathAt(path, i + j)
  {
  }

  /** A list cell: built from `createThing({ name: li-<path> })` with one
      `rdf:first` and one `rdf:rest` URL. */
  function ListCell(path: Path, firstUrl: string, restUrl: string): (r: Thing)
    ensures r.url == CellUrl(path)
  {
    AddUrl(AddUrl(CreateThing(CellName(path)), RDF_FIRST, firstUrl), RDF_REST, restUrl)
  }

  /** A cell's `first` and `rest` read back as the URLs it was built with. */
  lemma ListCellLinks(path: Path, firstUrl: string, restUrl: string)
    ensures GetUrl(ListCell(path, firstUrl, restUrl), RDF_FIRST) == Some(firstUrl)
    ensures GetUrl(ListCell(path, firstUrl, restUrl), RDF_REST) == Some(restUrl)
  {
  }

  /** What a converter hands back for each element: a non-empty array whose
      first entry is the element's own thing. */
  predicate ConverterOutput(converted: seq<seq<Slot>>) {
    forall i :: 0 <= i < |converted| ==> |converted[i]| > 0 && converted[i][0].Some?
  }

  /** The cell of the i-th element, as ArrayToThings builds it: `first` names
      what the converter made of element i, `rest` the next cell, the last
      cell's `rest` is rdf:nil. */
  function CellAt(converted: seq<seq<Slot>>, path: Path, i: nat): Thing
    requires ConverterOutput(converted) && |path| > 0 && i < |converted|
  {
    ListCell(PathAt(path, i), converted[i][0].value.url,
             if i + 1 < |converted| then CellUrl(PathAt(path, i + 1)) else RDF_NIL)
  }

  /** `arrayToThings`, with converted[i] standing for what the converter returns
      for element i at its path (the converter is applied by the caller).
      The result is the head cell, the element's things, then the things of
      the rest of the list, or `undefined` where the list ends. */
  function ArrayToThings(converted: seq<seq<Slot>>, path: Path): (r: seq<Slot>)
    requires |converted| > 0 && |path| > 0 && ConverterOutput(converted)
    ensures r != [] && r[0] == Some(CellAt(converted, path, 0))
    decreases |converted|
  {
    var next := if |converted| > 1 then ArrayToThings(converted[1..], PathAt(path, 1)) else [];
    var restUrl := if next == [] then RDF_NIL else next[0].value.url;
    PathAtZero(path);
    [Some(ListCell(path, converted[0][0].value.url, restUrl))] + converted[0] + (if next == [] then [None] else next)
  }

  /** The things ArrayToThings returns from element i on, laid out one
      position at a time: the cell of i, what the converter made of element i,
      and after the last element one `undefined`. */
  function Layout(converted: seq<seq<Slot>>, path: Path, i: nat): seq<Slot>
    requires ConverterOutput(converted) && |path| > 0 && i <= |converted|
    decreases |converted| - i
  {
    if i == |converted| then [None]
    else [Some(CellAt(converted, path, i))] + converted[i] + Layout(converted, path, i + 1)
  }

  /** One step of ArrayToThings: the head cell, the first element's things,
      then the rest of the list or `undefined`. */
  lemma ArrayToThingsUnfold(converted: seq<seq<Slot>>, path: Path)
    requires |converted| > 0 && |path| > 0 && ConverterOutput(converted)
    ensures ArrayToThings(converted, path) ==
              [Some(CellAt(converted, path, 0))] + converted[0] +
              (if |converted| > 1 then ArrayToThings(converted[1..], PathAt(path, 1)) else [None])
  {
  }

  /** A suffix of the input, listed from its own first path, has the same cells. */
  lemma CellAtSuffix(converted: seq<seq<Slot>>, path: Path, k: nat)
    requires ConverterOutput(converted) && |path| > 0 && k < |converted|
    ensures ConverterOutput(converted[k..])
    ensures CellAt(converted[k..], PathAt(path, k), 0) == CellAt(converted, path, k)
  {
    PathAtZero(PathAt(path, k));
    PathAtPathAt(path, k, 1);
  }

  /** Exactly one cell per element, in input order, each followed by that
      element's things, and the chain of `rest` links runs from the cell of
      element k to that of k + 1 and ends at rdf:nil. */
  lemma {:induction false} ArrayToThingsLayout(converted: seq<seq<Slot>>, path: Path, k: nat)
    requires ConverterOutput(converted) && |path| > 0 && k < |converted|
    ensures ArrayToThings(converted[k..], PathAt(path, k)) == Layout(converted, path, k)
    decreases |converted| - k
  {
    var c := converted[k..];
    CellAtSuffix(converted, path, k);
    ArrayToThingsUnfold(c, PathAt(path, k));
    if k + 1 < |converted| {
      ArrayToThingsLayout(converted, path, k + 1);
      assert c[1..] == converted[k + 1..];
      PathAtPathAt(path, k, 1);
    }
  }

  /** The thing a URL names in ds, if the URL is truthy and ds holds it. */
  function Resolve(ds: Dataset, u: Option<string>): Option<Thing> {
    if u.Some? && u.value != "" then GetThing(ds, u.value) else None
  }

  /** The thing a cell's `rdf:first` names. */
  function FirstThing(ds: Dataset, cell: Thing): Option<Thing> {
    Resolve(ds, GetUrl(cell, RDF_FIRST))
  }

  /** The next cell: none when `rdf:rest` is missing, empty, rdf:nil or unresolvable. */
  function RestThing(ds: Dataset, cell: Thing): Option<Thing> {
    var u := GetUrl(cell, RDF_REST);
    if u == Some(RDF_NIL) then None else Resolve(ds, u)
  }

  /** The cells reachable from cell by following `rest`, at most fuel of them:
      the chain starts at cell, each cell's `rest` resolves to the next, and
      only the last may end the list. */
  function Chain(ds: Dataset, cell: Thing, fuel: nat): (r: seq<Thing>)
    ensures |r| <= fuel && (fuel > 0 ==> r != [] && r[0] == cell)
    ensures forall i :: 0 <= i < |r| - 1 ==> RestThing(ds, r[i]) == Some(r[i + 1])
    ensures |r| < fuel ==> r != [] && RestThing(ds, r[|r| - 1]).None?
    decreases fuel
  {
    if fuel == 0 then []
    else
      match RestThing(ds, cell)
      case None => [cell]
      case Some(next) => [cell] + Chain(ds, next, fuel - 1)
  }

  lemma ChainCons(ds: Dataset, cell: Thing, next: Thing, fuel: nat, f: nat)
    requires fuel == f + 1 && RestThing(ds, cell) == Some(next)
    ensures Chain(ds, cell, fuel) == [cell] + Chain(ds, next, f)
  {
  }

  /** `thingsToArray`, with the converter as read(thing, fuel): walks the
      chain from cell, reading what each cell's `first` names, and stops at
      the first cell whose `first` does not resolve. A converter that gives
      no result (None) makes the whole reading give none. */
  function ThingsToArrayWith<T>(ds: Dataset, cell: Thing, fuel: nat, read: (Thing, nat) -> Option<T>): Option<seq<T>>
    decreases fuel
  {
    if fuel == 0 then None
    else
      match FirstThing(ds, cell)
      case None => Some([])
      case Some(first) =>
        match read(first, fuel - 1)
        case None => None
        case Some(o) =>
          match RestThing(ds, cell)
          case None => Some([o])
          case Some(next) =>
            match ThingsToArrayWith(ds, next, fuel - 1, read)
            case None => None
            case Some(os) => Some([o] + os)
  }

  /** A non-empty array read from cell: its head is what read makes of the
      thing cell's `first` names, and the rest, if any, is read from the cell
      `rest` names. */
  lemma ThingsToArrayWithCons<T>(ds: Dataset, cell: Thing, fuel: nat, f: nat, read: (Thing, nat) -> Option<T>)
    requires fuel == f + 1 && ThingsToArrayWith(ds, cell, fuel, read).Some? && ThingsToArrayWith(ds, cell, fuel, read).value != []
    ensures FirstThing(ds, cell).Some?
    ensures read(FirstThing(ds, cell).value, f) == Some(ThingsToArrayWith(ds, cell, fuel, read).value[0])
    ensures |ThingsToArrayWith(ds, cell, fuel, read).value| > 1 ==>
              RestThing(ds, cell).Some? && ThingsToArrayWith(ds, RestThing(ds, cell).value, f, read).Some? &&
              ThingsToArrayWith(ds, cell, fuel, read).value[1..] == ThingsToArrayWith(ds, RestThing(ds, cell).value, f, read).value
  {
  }

  /** Element i of the array is what read makes of the thing the `first` of
      the i-th cell of the chain names, with the fuel left at that depth. */
  lemma {:induction false} ThingsToArrayWithAt<T>(ds: Dataset, cell: Thing, fuel: nat, read: (Thing, nat) -> Option<T>, i: nat)
    requires ThingsToArrayWith(ds, cell, fuel, read).Some? && i < |ThingsToArrayWith(ds, cell, fuel, read).value|
    ensures i < fuel && i < |Chain(ds, cell, fuel)|
    ensures FirstThing(ds, Chain(ds, cell, fuel)[i]).Some?
    ensures read(FirstThing(ds, Chain(ds, cell, fuel)[i]).value, fuel - 1 - i) ==
              Some(ThingsToArrayWith(ds, cell, fuel, read).value[i])
    decreases i
  {
    var f: nat := fuel - 1;
    ThingsToArrayWithCons(ds, cell, fuel, f, read);
    var os := ThingsToArrayWith(ds, cell, fuel, read).value;
    if i == 0 {
      assert Chain(ds, cell, fuel)[0] == cell;
    } else {
      var next := RestThing(ds, cell).value;
      var g: nat := i - 1;
      ThingsToArrayWithAt(ds, next, f, read, g);
      ChainCons(ds, cell, next, fuel, f);
      ReadShift(ds, Chain(ds, cell, fuel), Chain(ds, next, f), cell, os,
                ThingsToArrayWith(ds, next, f, read).value, read, fuel, f, i, g);
    }
  }

  /** The step of ThingsToArrayWithAt: element i of a list with one more cell
      in front is element i - 1 of the rest, read one level deeper. */
  lemma ReadShift<T>(ds: Dataset, cells: seq<Thing>, rest: seq<Thing>, cell: Thing, os: seq<T>, tail: seq<T>,
                     read: (Thing, nat) -> Option<T>, fuel: nat, f: nat, i: nat, g: nat)
    requires cells == [cell] + rest && fuel == f + 1 && i == g + 1 && i < |os| && os[1..] == tail
    requires g < f && g < |rest| && FirstThing(ds, rest[g]).Some?
    requires read(FirstThing(ds, rest[g]).value, f - 1 - g) == Some(tail[g])
    ensures i < fuel && i < |cells| && FirstThing(ds, cells[i]).Some?
    ensures read(FirstThing(ds, cells[i]).value, fuel - 1 - i) == Some(os[i])
  {
    assert cells[i] == rest[g];
    assert os[i] == tail[g];
    assert fuel - 1 - i == f - 1 - g;
  }

  /** The array is no longer than the chain of cells, and when it is shorter
      the reading stopped at a cell whose `first` does not resolve: the
      cells after it are not read. */
  lemma {:induction false} ThingsToArrayWithChain<T>(ds: Dataset, cell: Thing, fuel: nat, read: (Thing, nat) -> Option<T>)
    requires ThingsToArrayWith(ds, cell, fuel, read).Some?
    ensures var os := ThingsToArrayWith(ds, cell, fuel, read).value;
            var cells := Chain(ds, cell, fuel);
            |os| <= |cells| && (|os| < |cells| ==> FirstThing(ds, cells[|os|]).None?)
    decreases fuel
  {
    var os := ThingsToArrayWith(ds, cell, fuel, read).value;
    var f: nat := fuel - 1;
    if os != [] {
      ThingsToArrayWithCons(ds, cell, fuel, f, read);
      var next := RestThing(ds, cell);
      if next.Some? {
        if |os| > 1 {
          ThingsToArrayWithChain(ds, next.value, f, read);
          ChainCons(ds, cell, next.value, fuel, f);
        } else {
          ThingsToArrayWithStops(ds, cell, next.value, fuel, f, read);
        }
      }
    }
  }

  /** A one-element array read from a cell with a next cell: the next cell's
      `first` does not resolve. */
  lemma ThingsToArrayWithStops<T>(ds: Dataset, cell: Thing, next: Thing, fuel: nat, f: nat, read: (Thing, nat) -> Option<T>)
    requires fuel == f + 1 && RestThing(ds, cell) == Some(next) && FirstThing(ds, cell).Some?
    requires ThingsToArrayWith(ds, cell, fuel, read).Some? && |ThingsToArrayWith(ds, cell, fuel, read).value| == 1
    ensures ThingsToArrayWith(ds, next, f, read) == Some([]) && f > 0 && FirstThing(ds, next).None?
  {
  }
}

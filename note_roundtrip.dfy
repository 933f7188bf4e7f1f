/** What the note codec promises as a whole: storing every thing the encoder
    returns and decoding from the head cell gives back the document, less
    exactly the values the decoder does not read. */
module NoteRoundTrip {
  import opened Wrappers
  import opened Rdf
  import opened Vocab
  import Js
  import opened Collections
  import opened Note

  // ---------------------------------------------------------------------
  // Storing: `things.filter(x => !!x).reduce(setThing, dataset)`.

  function StoreAll(slots: seq<Slot>, ds: Dataset): (r: Dataset)
    ensures forall u :: u in ds ==> u in r
    ensures forall i :: 0 <= i < |slots| && slots[i].Some? ==> slots[i].value.url in r
  {
    if slots == [] then ds
    else StoreAll(slots[1..], if slots[0].Some? then SetThing(ds, slots[0].value) else ds)
  }

  lemma {:induction false} StoreAllAppend(a: seq<Slot>, b: seq<Slot>, ds: Dataset)
    ensures StoreAll(a + b, ds) == StoreAll(b, StoreAll(a, ds))
  {
    if a != [] {
      var d := if a[0].Some? then SetThing(ds, a[0].value) else ds;
      assert (a + b)[0] == a[0];
      assert (a + b)[1..] == a[1..] + b;
      assert StoreAll(a + b, ds) == StoreAll(a[1..] + b, d);
      StoreAllAppend(a[1..], b, d);
    } else {
      assert a + b == b;
    }
  }

  /** d2 holds every thing d1 holds at a URL outside u. */
  ghost predicate Outside(d1: Dataset, d2: Dataset, u: set<string>) {
    forall x :: x !in u && x in d1 ==> x in d2 && d2[x] == d1[x]
  }

  /** d2 holds every thing d1 holds at a URL in u. */
  ghost predicate Keeps(d1: Dataset, d2: Dataset, u: set<string>) {
    forall x :: x in u && x in d1 ==> x in d2 && d2[x] == d1[x]
  }

  // ---------------------------------------------------------------------
  // The client library on a predicate the thing does not hold yet.

  lemma PositionNoneAppend(a: seq<Entry>, b: seq<Entry>, p: string)
    requires Position(a, p).None?
    requires forall j :: 0 <= j < |b| ==> b[j].property != p
    ensures Position(a + b, p).None?
  {
    assert forall j :: 0 <= j < |a + b| ==> (a + b)[j].property != p by {
      forall j | 0 <= j < |a + b| ensures (a + b)[j].property != p {
        if j >= |a| {
          assert (a + b)[j] == b[j - |a|];
        }
      }
    }
  }

  lemma WithoutAbsent(entries: seq<Entry>, p: string)
    requires Position(entries, p).None?
    ensures Without(entries, p) == entries
  {
    if entries != [] {
      WithoutAbsent(entries[1..], p);
    }
  }

  lemma SetLiteralAbsent(t: Thing, p: string, l: Literal)
    requires Position(t.predicates, p).None?
    ensures SetLiteral(t, p, l) == Thing(t.url, t.predicates + [Entry(p, Objects([], [l]))])
  {
    WithoutAbsent(t.predicates, p);
  }

  lemma AddUrlAbsent(t: Thing, p: string, u: string)
    requires Position(t.predicates, p).None?
    ensures AddUrl(t, p, u) == Thing(t.url, t.predicates + [Entry(p, Objects([u], []))])
  {
    assert ObjectsOf(t, p) == NO_OBJECTS;
    assert ObjectsOf(t, p).urls + [u] == [u];
    assert AddUrl(t, p, u) == Put(t, p, Objects([u], []));
  }

  lemma PredInjective(a: string, b: string)
    ensures Pred(a) == Pred(b) ==> a == b
  {
    assert Pred(a)[|NOTE_NS|..] == a;
    assert Pred(b)[|NOTE_NS|..] == b;
  }

  // ---------------------------------------------------------------------
  // What one record holds.

  /** The typed literal a number becomes. */
  function NumberLiteral(n: Js.JsNumber): Literal {
    if Js.IsInteger(n) then XInteger(Js.IntegerValue(n)) else XDecimal(n)
  }

  /** The predicate the encoder writes for one field: none for a value that
      is not a string, boolean, number or array. */
  function FieldEntries(f: Field, path: Path): (r: seq<Entry>)
    ensures |r| <= 1 && forall j :: 0 <= j < |r| ==> r[j].property == Pred(f.key)
  {
    match f.value
    case Str(s) => [Entry(Pred(f.key), Objects([], [XString(s)]))]
    case Bool(b) => [Entry(Pred(f.key), Objects([], [XBoolean(b)]))]
    case Num(n) => [Entry(Pred(f.key), Objects([], [NumberLiteral(n)]))]
    case Arr(_) => [Entry(Pred(f.key), Objects([CellUrl(path + [0])], []))]
    case Nullish => []
    case Opaque => []
  }

  function EntriesOf(fields: seq<Field>, path: Path): seq<Entry> {
    if fields == [] then [] else FieldEntries(fields[0], path) + EntriesOf(fields[1..], path)
  }

  /** The things the arrays among the fields bring, in key order. */
  function FieldSubs(fields: seq<Field>, path: Path): seq<Slot>
    requires |path| > 0 && FieldsEncode(fields)
  {
    if fields == [] then []
    else
      var v := fields[0].value;
      assert ValueEncodes(v);
      (if v.Arr? then EncodeList(v.items, path + [0]).value else []) + FieldSubs(fields[1..], path)
  }

  /** No key contains the note namespace, so splitting on it finds the key. */
  predicate NsFree(fields: seq<Field>) {
    forall i :: 0 <= i < |fields| ==> Js.IndexOf(fields[i].key, NOTE_NS).None?
  }

  lemma ScalarShape(thing: Thing, f: Field, path: Path, l: Literal)
    requires |path| > 0 && Position(thing.predicates, Pred(f.key)).None?
    requires AddKeyValToThing(thing, Pred(f.key), f.value, path) == Ok((SetLiteral(thing, Pred(f.key), l), []))
    requires FieldEntries(f, path) == [Entry(Pred(f.key), Objects([], [l]))]
    ensures AddKeyValToThing(thing, Pred(f.key), f.value, path) ==
              Ok((Thing(thing.url, thing.predicates + FieldEntries(f, path)), []))
  {
    SetLiteralAbsent(thing, Pred(f.key), l);
  }

  lemma ArrayShape(thing: Thing, f: Field, path: Path)
    requires |path| > 0 && f.value.Arr? && ValueEncodes(f.value) && Position(thing.predicates, Pred(f.key)).None?
    ensures AddKeyValToThing(thing, Pred(f.key), f.value, path) ==
              Ok((Thing(thing.url, thing.predicates + FieldEntries(f, path)), EncodeList(f.value.items, path + [0]).value))
  {
    var p := Pred(f.key);
    var slots := EncodeList(f.value.items, path + [0]).value;
    assert slots[0].value.url == CellUrl(path + [0]);
    assert AddKeyValToThing(thing, p, f.value, path) == Ok((AddUrl(thing, p, CellUrl(path + [0])), slots));
    AddUrlAbsent(thing, p, CellUrl(path + [0]));
  }

  lemma AddKeyValShape(thing: Thing, f: Field, path: Path)
    requires |path| > 0 && ValueEncodes(f.value) && Position(thing.predicates, Pred(f.key)).None?
    ensures AddKeyValToThing(thing, Pred(f.key), f.value, path) ==
              Ok((Thing(thing.url, thing.predicates + FieldEntries(f, path)),
                  if f.value.Arr? then EncodeList(f.value.items, path + [0]).value else []))
  {
    match f.value
    case Arr(items) => ArrayShape(thing, f, path);
    case Str(s) => ScalarShape(thing, f, path, XString(s));
    case Bool(b) => ScalarShape(thing, f, path, XBoolean(b));
    case Num(n) => ScalarShape(thing, f, path, NumberLiteral(n));
    case Nullish => assert thing.predicates + [] == thing.predicates;
    case Opaque => assert thing.predicates + [] == thing.predicates;
  }

  /** No key of fields has a predicate among the entries yet. */
  predicate KeysAbsent(entries: seq<Entry>, fields: seq<Field>) {
    forall i :: 0 <= i < |fields| ==> Position(entries, Pred(fields[i].key)).None?
  }

  /** After one key is written, the later keys are still absent and distinct. */
  lemma FreshAfterStep(fields: seq<Field>, record: Thing, path: Path)
    requires fields != [] && KeysDistinct(fields) && KeysAbsent(record.predicates, fields)
    ensures Position(record.predicates, Pred(fields[0].key)).None?
    ensures KeysDistinct(fields[1..])
    ensures KeysAbsent(record.predicates + FieldEntries(fields[0], path), fields[1..])
  {
    var e := FieldEntries(fields[0], path);
    forall i | 0 <= i < |fields[1..]|
      ensures Position(record.predicates + e, Pred(fields[1..][i].key)).None?
    {
      assert fields[1..][i].key == fields[i + 1].key != fields[0].key;
      PredInjective(fields[0].key, fields[1..][i].key);
      PositionNoneAppend(record.predicates, e, Pred(fields[1..][i].key));
    }
    assert Position(record.predicates, Pred(fields[0].key)).None?;
  }

  /** FoldFields over fields[0] and then the rest. */
  lemma FoldStep(fields: seq<Field>, record: Thing, acc: seq<Slot>, path: Path)
    requires |path| > 0 && fields != [] && FieldsEncode(fields)
    requires Position(record.predicates, Pred(fields[0].key)).None?
    ensures ValueEncodes(fields[0].value)
    ensures FoldFields(fields, record, acc, path) ==
              FoldFields(fields[1..], Thing(record.url, record.predicates + FieldEntries(fields[0], path)),
                         acc + (if fields[0].value.Arr? then EncodeList(fields[0].value.items, path + [0]).value else []), path)
  {
    AddKeyValShape(record, fields[0], path);
  }

  lemma EntriesOfCons(before: seq<Entry>, fields: seq<Field>, path: Path)
    requires fields != []
    ensures before + FieldEntries(fields[0], path) + EntriesOf(fields[1..], path) == before + EntriesOf(fields, path)
  {
  }

  lemma FieldSubsUnfold(fields: seq<Field>, path: Path)
    requires |path| > 0 && fields != [] && FieldsEncode(fields) && ValueEncodes(fields[0].value)
    ensures (if fields[0].value.Arr? then EncodeList(fields[0].value.items, path + [0]).value else [])
              + FieldSubs(fields[1..], path) == FieldSubs(fields, path)
  {
  }

  lemma SlotsAssoc(a: seq<Slot>, b: seq<Slot>, c: seq<Slot>)
    ensures a + b + c == a + (b + c)
  {
  }

  lemma FieldSubsCons(acc: seq<Slot>, fields: seq<Field>, path: Path)
    requires |path| > 0 && fields != [] && FieldsEncode(fields) && ValueEncodes(fields[0].value)
    ensures acc + (if fields[0].value.Arr? then EncodeList(fields[0].value.items, path + [0]).value else [])
                + FieldSubs(fields[1..], path) == acc + FieldSubs(fields, path)
  {
    var more := if fields[0].value.Arr? then EncodeList(fields[0].value.items, path + [0]).value else [];
    FieldSubsUnfold(fields, path);
    SlotsAssoc(acc, more, FieldSubs(fields[1..], path));
  }

  /** The fold's step: the first key's entry and things, then the rest. */
  lemma FoldShapeCons(fields: seq<Field>, record: Thing, acc: seq<Slot>, path: Path)
    requires |path| > 0 && fields != [] && FieldsEncode(fields)
    requires Position(record.predicates, Pred(fields[0].key)).None?
    requires ValueEncodes(fields[0].value)
    requires
      var record' := Thing(record.url, record.predicates + FieldEntries(fields[0], path));
      var more := if fields[0].value.Arr? then EncodeList(fields[0].value.items, path + [0]).value else [];
      FoldFields(fields[1..], record', acc + more, path) ==
        Ok((Thing(record.url, record'.predicates + EntriesOf(fields[1..], path)), acc + more + FieldSubs(fields[1..], path)))
    ensures FoldFields(fields, record, acc, path) ==
              Ok((Thing(record.url, record.predicates + EntriesOf(fields, path)), acc + FieldSubs(fields, path)))
  {
    var f := fields[0];
    var e := FieldEntries(f, path);
    var record' := Thing(record.url, record.predicates + e);
    var more := if f.value.Arr? then EncodeList(f.value.items, path + [0]).value else [];
    var rest := EntriesOf(fields[1..], path);
    var subs := FieldSubs(fields[1..], path);
    calc {
      FoldFields(fields, record, acc, path);
      { FoldStep(fields, record, acc, path); }
      FoldFields(fields[1..], record', acc + more, path);
      Ok((Thing(record.url, record.predicates + e + rest), acc + more + subs));
      { EntriesOfCons(record.predicates, fields, path);
        FieldSubsCons(acc, fields, path); }
      Ok((Thing(record.url, record.predicates + EntriesOf(fields, path)), acc + FieldSubs(fields, path)));
    }
  }

  lemma {:induction false} FoldShape(fields: seq<Field>, record: Thing, acc: seq<Slot>, path: Path)
    requires |path| > 0 && FieldsEncode(fields) && KeysDistinct(fields) && KeysAbsent(record.predicates, fields)
    ensures FoldFields(fields, record, acc, path) ==
              Ok((Thing(record.url, record.predicates + EntriesOf(fields, path)), acc + FieldSubs(fields, path)))
  {
    if fields == [] {
      assert record.predicates + [] == record.predicates;
      assert acc + [] == acc;
    } else {
      var f := fields[0];
      assert ValueEncodes(f.value);
      var record' := Thing(record.url, record.predicates + FieldEntries(f, path));
      var more := if f.value.Arr? then EncodeList(f.value.items, path + [0]).value else [];
      FreshAfterStep(fields, record, path);
      FoldShape(fields[1..], record', acc + more, path);
      FoldShapeCons(fields, record, acc, path);
    }
  }

  lemma ElementFromFold(o: Obj, path: Path)
    requires |path| > 0 && FieldsEncode(o.fields)
    requires FoldFields(o.fields, CreateThing(RecordName(o, path)), [], path) ==
               Ok((Thing(RecordUrl(o, path), EntriesOf(o.fields, path)), FieldSubs(o.fields, path)))
    ensures CreateThingFromSlateJSOElement(o, path) ==
              Ok([Some(CreateThing(RecordName(o, path))), Some(Thing(RecordUrl(o, path), EntriesOf(o.fields, path)))]
                 + FieldSubs(o.fields, path))
  {
  }

  /** createThingFromSlateJSOElement returns the empty record, then the
      record with one predicate `noteNS(k)` per key k whose value is a
      string, boolean, number or array, in key order, then the things of
      its arrays. */
  lemma ElementShape(o: Obj, path: Path)
    requires |path| > 0 && FieldsEncode(o.fields) && KeysDistinct(o.fields)
    ensures CreateThingFromSlateJSOElement(o, path) ==
              Ok([Some(CreateThing(RecordName(o, path))), Some(Thing(RecordUrl(o, path), EntriesOf(o.fields, path)))]
                 + FieldSubs(o.fields, path))
  {
    var blank := CreateThing(RecordName(o, path));
    assert KeysAbsent(blank.predicates, o.fields);
    FoldShape(o.fields, blank, [], path);
    EmptyPrefix(EntriesOf(o.fields, path));
    EmptyPrefix(FieldSubs(o.fields, path));
    ElementFromFold(o, path);
  }

  lemma EmptyPrefix<T>(s: seq<T>)
    ensures [] + s == s
  {
  }

  /** arrayToThings in terms of the element layer: the head cell, the
      first element's things, then the rest of the list or `undefined`. */
  lemma EncodeListUnfold(items: seq<Obj>, path: Path)
    requires |path| > 0 && items != [] && ItemsEncode(items)
    requires FieldsEncode(items[0].fields) && ItemsEncode(items[1..])
    ensures EncodeList(items, path).value ==
              [EncodeList(items, path).value[0]] + CreateThingFromSlateJSOElement(items[0], path).value
              + (if |items| > 1 then EncodeList(items[1..], PathAt(path, 1)).value else [None])
  {
    var conv := ConvertAll(items, path).value;
    ArrayToThingsUnfold(conv, path);
    if |items| > 1 {
      assert conv[1..] == ConvertAll(items[1..], PathAt(path, 1)).value;
    }
  }

  // ---------------------------------------------------------------------
  // Where the encoding of a document lives in a dataset.

  /** The URL the cell at path links to: the next cell, or rdf:nil at the end. */
  function NextUrl(items: seq<Obj>, path: Path): string
    requires |path| > 0
  {
    if |items| > 1 then CellUrl(PathAt(path, 1)) else RDF_NIL
  }

  /** d holds the cells of items from path on, and the record of each element. */
  ghost predicate ListStored(d: Dataset, items: seq<Obj>, path: Path)
    requires |path| > 0
    decreases items, 1
  {
    && items != []
    && CellUrl(path) in d
    && d[CellUrl(path)] == ListCell(path, RecordUrl(items[0], path), NextUrl(items, path))
    && ObjStored(d, items[0], path)
    && (|items| > 1 ==> ListStored(d, items[1..], PathAt(path, 1)))
  }

  ghost predicate ObjStored(d: Dataset, o: Obj, path: Path)
    requires |path| > 0
    decreases o, 0
  {
    && RecordUrl(o, path) in d
    && d[RecordUrl(o, path)] == Thing(RecordUrl(o, path), EntriesOf(o.fields, path))
    && FieldsStored(d, o.fields, path)
  }

  ghost predicate FieldsStored(d: Dataset, fields: seq<Field>, path: Path)
    requires |path| > 0
    decreases fields, 0
  {
    || fields == []
    || ((fields[0].value.Arr? ==> ListStored(d, fields[0].value.items, path + [0]))
        && FieldsStored(d, fields[1..], path))
  }

  /** Every URL the encoding of items at path names. */
  ghost function ListUrls(items: seq<Obj>, path: Path): set<string>
    requires |path| > 0
    decreases items, 1
  {
    if items == [] then {}
    else {CellUrl(path)} + ObjUrls(items[0], path)
         + (if |items| > 1 then ListUrls(items[1..], PathAt(path, 1)) else {})
  }

  ghost function ObjUrls(o: Obj, path: Path): set<string>
    requires |path| > 0
    decreases o, 0
  {
    {RecordUrl(o, path)} + FieldsUrls(o.fields, path)
  }

  ghost function FieldsUrls(fields: seq<Field>, path: Path): set<string>
    requires |path| > 0
    decreases fields, 0
  {
    if fields == [] then {}
    else (if fields[0].value.Arr? then ListUrls(fields[0].value.items, path + [0]) else {})
         + FieldsUrls(fields[1..], path)
  }

  /** The document can be told apart after storing: no two things the
      encoder makes share a URL (an `id` may clash with another `id` or with
      a generated name), and within each object the keys are distinct and
      free of the note namespace. */
  ghost predicate ListSound(items: seq<Obj>, path: Path)
    requires |path| > 0
    decreases items, 1
  {
    items != [] ==>
      && CellUrl(path) !in ObjUrls(items[0], path)
      && ObjSound(items[0], path)
      && (|items| > 1 ==>
            && CellUrl(path) !in ListUrls(items[1..], PathAt(path, 1))
            && ObjUrls(items[0], path) !! ListUrls(items[1..], PathAt(path, 1))
            && ListSound(items[1..], PathAt(path, 1)))
  }

  ghost predicate ObjSound(o: Obj, path: Path)
    requires |path| > 0
    decreases o, 0
  {
    && KeysDistinct(o.fields)
    && InKeyOrder(o.fields)
    && NsFree(o.fields)
    && RecordUrl(o, path) !in FieldsUrls(o.fields, path)
    && FieldsSound(o.fields, path)
  }

  ghost predicate FieldsSound(fields: seq<Field>, path: Path)
    requires |path| > 0
    decreases fields, 0
  {
    || fields == []
    || ((fields[0].value.Arr? ==>
           && ListSound(fields[0].value.items, path + [0])
           && ListUrls(fields[0].value.items, path + [0]) !! FieldsUrls(fields[1..], path))
        && FieldsSound(fields[1..], path))
  }

  lemma ListStoredFrame(d1: Dataset, d2: Dataset, items: seq<Obj>, path: Path)
    requires |path| > 0 && ListStored(d1, items, path) && Keeps(d1, d2, ListUrls(items, path))
    ensures ListStored(d2, items, path)
    decreases items, 1
  {
    ObjStoredFrame(d1, d2, items[0], path);
    if |items| > 1 {
      ListStoredFrame(d1, d2, items[1..], PathAt(path, 1));
    }
  }

  lemma ObjStoredFrame(d1: Dataset, d2: Dataset, o: Obj, path: Path)
    requires |path| > 0 && ObjStored(d1, o, path) && Keeps(d1, d2, ObjUrls(o, path))
    ensures ObjStored(d2, o, path)
    decreases o, 0
  {
    FieldsStoredFrame(d1, d2, o.fields, path);
  }

  lemma FieldsStoredFrame(d1: Dataset, d2: Dataset, fields: seq<Field>, path: Path)
    requires |path| > 0 && FieldsStored(d1, fields, path) && Keeps(d1, d2, FieldsUrls(fields, path))
    ensures FieldsStored(d2, fields, path)
    decreases fields, 0
  {
    if fields != [] {
      if fields[0].value.Arr? {
        ListStoredFrame(d1, d2, fields[0].value.items, path + [0]);
      }
      FieldsStoredFrame(d1, d2, fields[1..], path);
    }
  }

  /** Storing the things of the arrays among fields stores each array's list. */
  lemma {:induction false} FieldSubsStore(fields: seq<Field>, path: Path, d: Dataset)
    requires |path| > 0 && FieldsEncode(fields) && FieldsSound(fields, path)
    ensures FieldsStored(StoreAll(FieldSubs(fields, path), d), fields, path)
    ensures Outside(d, StoreAll(FieldSubs(fields, path), d), FieldsUrls(fields, path))
    decreases fields, 0
  {
    if fields != [] {
      var v := fields[0].value;
      assert ValueEncodes(v);
      var more := if v.Arr? then EncodeList(v.items, path + [0]).value else [];
      var rest := FieldSubs(fields[1..], path);
      FieldSubsUnfold(fields, path);
      StoreAllAppend(more, rest, d);
      var d1 := StoreAll(more, d);
      if v.Arr? {
        EncodeListStores(v.items, path + [0], d);
      }
      FieldSubsStore(fields[1..], path, d1);
      var d2 := StoreAll(rest, d1);
      if v.Arr? {
        ListStoredFrame(d1, d2, v.items, path + [0]);
      }
    }
  }

  /** Storing the three things at the head of a list's encoding. */
  lemma StoreHead(cell: Thing, blank: Thing, rec: Thing, d: Dataset)
    requires blank.url == rec.url
    ensures StoreAll([Some(cell), Some(blank), Some(rec)], d) == d[cell.url := cell][rec.url := rec]
  {
    var s := [Some(cell), Some(blank), Some(rec)];
    assert s[1..] == [Some(blank), Some(rec)];
    assert s[1..][1..] == [Some(rec)];
    assert StoreAll(s, d) == StoreAll([Some(rec)], d[cell.url := cell][blank.url := blank]);
    assert StoreAll([Some(rec)], d[cell.url := cell][blank.url := blank]) == d[cell.url := cell][blank.url := blank][rec.url := rec];
    assert d[cell.url := cell][blank.url := blank][rec.url := rec] == d[cell.url := cell][rec.url := rec];
  }

  /** The cell of the first element of items at path. */
  function HeadCell(items: seq<Obj>, path: Path): Thing
    requires |path| > 0 && items != []
  {
    ListCell(path, RecordUrl(items[0], path), NextUrl(items, path))
  }

  /** The populated record of o at path. */
  function Record(o: Obj, path: Path): Thing
    requires |path| > 0
  {
    Thing(RecordUrl(o, path), EntriesOf(o.fields, path))
  }

  /** What the encoder returns for a list, element by element. */
  lemma EncodeSlots(items: seq<Obj>, path: Path)
    requires |path| > 0 && items != [] && ItemsEncode(items) && KeysDistinct(items[0].fields)
    ensures FieldsEncode(items[0].fields) && ItemsEncode(items[1..]) && EncodeList(items, path).Ok?
    ensures EncodeList(items, path).value ==
              [Some(HeadCell(items, path)), Some(CreateThing(RecordName(items[0], path))), Some(Record(items[0], path))]
              + FieldSubs(items[0].fields, path)
              + (if |items| > 1 then EncodeList(items[1..], PathAt(path, 1)).value else [None])
  {
    assert FieldsEncode(items[0].fields) && ItemsEncode(items[1..]);
    EncodeListUnfold(items, path);
    ElementShape(items[0], path);
    var slots := EncodeList(items, path).value;
    assert slots[0] == Some(HeadCell(items, path));
    SlotsRegroup(slots[0], Some(CreateThing(RecordName(items[0], path))), Some(Record(items[0], path)),
                 FieldSubs(items[0].fields, path),
                 if |items| > 1 then EncodeList(items[1..], PathAt(path, 1)).value else [None]);
  }

  lemma SlotsRegroup(a: Slot, b: Slot, c: Slot, subs: seq<Slot>, tail: seq<Slot>)
    ensures [a] + ([b, c] + subs) + tail == [a, b, c] + subs + tail
  {
  }

  /** Storing a list's encoding: head, then the arrays of the first element, then the tail. */
  lemma StoreSlots(items: seq<Obj>, path: Path, d: Dataset)
    requires |path| > 0 && items != [] && ItemsEncode(items) && KeysDistinct(items[0].fields)
    ensures FieldsEncode(items[0].fields) && ItemsEncode(items[1..]) && EncodeList(items, path).Ok?
    ensures StoreAll(EncodeList(items, path).value, d) ==
              StoreAll(if |items| > 1 then EncodeList(items[1..], PathAt(path, 1)).value else [None],
                       StoreAll(FieldSubs(items[0].fields, path),
                                d[CellUrl(path) := HeadCell(items, path)][RecordUrl(items[0], path) := Record(items[0], path)]))
  {
    EncodeSlots(items, path);
    var head := [Some(HeadCell(items, path)), Some(CreateThing(RecordName(items[0], path))), Some(Record(items[0], path))];
    var subs := FieldSubs(items[0].fields, path);
    var tail := if |items| > 1 then EncodeList(items[1..], PathAt(path, 1)).value else [None];
    StoreAllAppend(head + subs, tail, d);
    StoreAllAppend(head, subs, d);
    StoreHead(HeadCell(items, path), CreateThing(RecordName(items[0], path)), Record(items[0], path), d);
  }

  /** The list at path is stored once its head, its first element's arrays
      and its tail are, each where the others cannot overwrite it. */
  lemma AssembleStored(items: seq<Obj>, path: Path, d: Dataset, d3: Dataset, d4: Dataset)
    requires |path| > 0 && items != [] && ListSound(items, path)
    requires FieldsStored(d3, items[0].fields, path)
    requires Outside(d[CellUrl(path) := HeadCell(items, path)][RecordUrl(items[0], path) := Record(items[0], path)],
                     d3, FieldsUrls(items[0].fields, path))
    requires |items| > 1 ==> ListStored(d4, items[1..], PathAt(path, 1)) && Outside(d3, d4, ListUrls(items[1..], PathAt(path, 1)))
    requires |items| == 1 ==> d4 == d3
    ensures ListStored(d4, items, path)
    ensures Outside(d, d4, ListUrls(items, path))
  {
    var o := items[0];
    var rest := if |items| > 1 then ListUrls(items[1..], PathAt(path, 1)) else {};
    assert Outside(d3, d4, rest);
    assert Keeps(d3, d4, ObjUrls(o, path) + {CellUrl(path)});
    FieldsStoredFrame(d3, d4, o.fields, path);
  }

  lemma ListSoundUnfold(items: seq<Obj>, path: Path)
    requires |path| > 0 && items != [] && ListSound(items, path)
    ensures KeysDistinct(items[0].fields) && ObjSound(items[0], path) && FieldsSound(items[0].fields, path)
    ensures |items| > 1 ==> ListSound(items[1..], PathAt(path, 1))
  {
  }

  /** The dataset once the head of a list's encoding and the arrays of its
      first element are stored over d. */
  ghost function StoredFirst(items: seq<Obj>, path: Path, d: Dataset): Dataset
    requires |path| > 0 && items != [] && FieldsEncode(items[0].fields)
  {
    StoreAll(FieldSubs(items[0].fields, path),
             d[CellUrl(path) := HeadCell(items, path)][RecordUrl(items[0], path) := Record(items[0], path)])
  }

  /** EncodeListStores once the tail is known to be stored. */
  lemma StoresFromTail(items: seq<Obj>, path: Path, d: Dataset)
    requires |path| > 0 && items != [] && ItemsEncode(items) && ListSound(items, path)
    requires FieldsEncode(items[0].fields) && ItemsEncode(items[1..])
    requires |items| > 1 ==>
      var d3 := StoredFirst(items, path, d);
      var d4 := StoreAll(EncodeList(items[1..], PathAt(path, 1)).value, d3);
      ListStored(d4, items[1..], PathAt(path, 1)) && Outside(d3, d4, ListUrls(items[1..], PathAt(path, 1)))
    ensures EncodeList(items, path).Ok?
    ensures ListStored(StoreAll(EncodeList(items, path).value, d), items, path)
    ensures Outside(d, StoreAll(EncodeList(items, path).value, d), ListUrls(items, path))
    decreases items, 0
  {
    ListSoundUnfold(items, path);
    StoreSlots(items, path, d);
    var d2 := d[CellUrl(path) := HeadCell(items, path)][RecordUrl(items[0], path) := Record(items[0], path)];
    FieldSubsStore(items[0].fields, path, d2);
    var d3 := StoredFirst(items, path, d);
    var tail := if |items| > 1 then EncodeList(items[1..], PathAt(path, 1)).value else [None];
    if |items| == 1 {
      assert tail[1..] == [];
    }
    AssembleStored(items, path, d, d3, StoreAll(tail, d3));
  }

  /** Storing everything the encoder returns for items lays down the list
      at path and its records, and touches no URL outside the encoding. */
  lemma {:induction false} EncodeListStores(items: seq<Obj>, path: Path, d: Dataset)
    requires |path| > 0 && items != [] && ItemsEncode(items) && ListSound(items, path)
    ensures EncodeList(items, path).Ok?
    ensures ListStored(StoreAll(EncodeList(items, path).value, d), items, path)
    ensures Outside(d, StoreAll(EncodeList(items, path).value, d), ListUrls(items, path))
    decreases items, 1
  {
    ListSoundUnfold(items, path);
    assert FieldsEncode(items[0].fields) && ItemsEncode(items[1..]);
    if |items| > 1 {
      EncodeListStores(items[1..], PathAt(path, 1), StoredFirst(items, path, d));
    }
    StoresFromTail(items, path, d);
  }

  // ---------------------------------------------------------------------
  // What the decoder gives back.

  /** What survives of one field: nothing for an empty key or `__proto__`
      (assigning it runs the inherited setter); a string or
      boolean as it was; a number only when it is a non-zero integer; an
      array only under the key "children", and its elements as they
      survive; nothing for any other value. */
  function RestoredField(f: Field): seq<Field>
    decreases f, 0
  {
    if f.key == "" || f.key == PROTO then []
    else
      match f.value
      case Str(_) => if f.key == "children" then [] else [f]
      case Bool(_) => if f.key == "children" then [] else [f]
      case Num(n) =>
        if f.key != "children" && Js.IsInteger(n) && Js.IntegerValue(n) != 0
        then [Field(f.key, Num(Js.JsNumber(Js.IntegerValue(n), 0)))]
        else []
      case Arr(items) => if f.key == "children" then [Field(f.key, Arr(RestoredList(items)))] else []
      case Nullish => []
      case Opaque => []
  }

  function RestoredFields(fields: seq<Field>): seq<Field>
    decreases fields, 1
  {
    if fields == [] then [] else RestoredField(fields[0]) + RestoredFields(fields[1..])
  }

  function Restored(o: Obj): Obj
    decreases o, 0
  {
    Obj(RestoredFields(o.fields))
  }

  function RestoredList(items: seq<Obj>): seq<Obj>
    decreases items, 0
  {
    if items == [] then [] else [Restored(items[0])] + RestoredList(items[1..])
  }

  /** The number of list cells in a document: the fuel decoding needs. */
  function SizeList(items: seq<Obj>): nat
    decreases items, 1
  {
    if items == [] then 0 else 1 + SizeObj(items[0]) + SizeList(items[1..])
  }

  function SizeObj(o: Obj): nat
    decreases o, 0
  {
    SizeFields(o.fields)
  }

  function SizeFields(fields: seq<Field>): nat
    decreases fields, 0
  {
    if fields == [] then 0
    else (if fields[0].value.Arr? then SizeList(fields[0].value.items) else 0) + SizeFields(fields[1..])
  }

  // ---------------------------------------------------------------------
  // Facts about one record, field by field.

  lemma {:induction false} FieldAt(d: Dataset, fields: seq<Field>, path: Path, i: nat)
    requires |path| > 0 && i < |fields| && fields[i].value.Arr?
    requires FieldsStored(d, fields, path) && FieldsSound(fields, path)
    ensures ListStored(d, fields[i].value.items, path + [0])
    ensures ListSound(fields[i].value.items, path + [0])
    ensures SizeList(fields[i].value.items) <= SizeFields(fields)
  {
    if i > 0 {
      FieldAt(d, fields[1..], path, i - 1);
    }
  }

  lemma {:induction false} EntriesLookup(fields: seq<Field>, path: Path, i: nat)
    requires i < |fields| && KeysDistinct(fields) && FieldEntries(fields[i], path) != []
    ensures ObjectsIn(EntriesOf(fields, path), Pred(fields[i].key)) == FieldEntries(fields[i], path)[0].objects
  {
    var a := FieldEntries(fields[0], path);
    var b := EntriesOf(fields[1..], path);
    var q := Pred(fields[i].key);
    if i == 0 {
      ObjectsInCons(a[0], b, q);
      assert a == [a[0]];
    } else {
      assert fields[1..][i - 1] == fields[i];
      EntriesLookup(fields[1..], path, i - 1);
      if a != [] {
        PredInjective(fields[0].key, fields[i].key);
        ObjectsInCons(a[0], b, q);
        assert a == [a[0]];
      } else {
        assert a + b == b;
      }
    }
  }

  lemma {:induction false} EntriesOfSnoc(fields: seq<Field>, path: Path, j: nat)
    requires j < |fields|
    ensures EntriesOf(fields[..j + 1], path) == EntriesOf(fields[..j], path) + FieldEntries(fields[j], path)
  {
    if j == 0 {
      assert fields[..1][1..] == [];
    } else {
      assert fields[..j + 1][1..] == fields[1..][..j];
      assert fields[..j][1..] == fields[1..][..j - 1];
      EntriesOfSnoc(fields[1..], path, j - 1);
    }
  }

  lemma {:induction false} RestoredFieldsSnoc(fields: seq<Field>, j: nat)
    requires j < |fields|
    ensures RestoredFields(fields[..j + 1]) == RestoredFields(fields[..j]) + RestoredField(fields[j])
  {
    if j == 0 {
      assert fields[..1][1..] == [];
    } else {
      assert fields[..j + 1][1..] == fields[1..][..j];
      assert fields[..j][1..] == fields[1..][..j - 1];
      RestoredFieldsSnoc(fields[1..], j - 1);
    }
  }

  /** Decoding keeps only keys it found in the input. */
  lemma {:induction false} RestoredKeys(fields: seq<Field>, k: string)
    requires k !in Keys(fields)
    ensures k !in Keys(RestoredFields(fields))
  {
    if fields != [] {
      assert Keys(fields) == [fields[0].key] + Keys(fields[1..]);
      RestoredKeys(fields[1..], k);
      var r := RestoredField(fields[0]);
      RestoredFieldKey(fields[0]);
      assert RestoredFields(fields) == r + RestoredFields(fields[1..]);
      KeysAppend(r, RestoredFields(fields[1..]));
    }
  }

  /** A restored field keeps its key, or is dropped. */
  lemma RestoredFieldKey(f: Field)
    ensures |RestoredField(f)| <= 1
    ensures forall g :: g in RestoredField(f) ==> g.key == f.key
  {
  }

  /** A key the object lacks and that every key present may precede. */
  predicate Appendable(fields: seq<Field>, key: string) {
    key !in Keys(fields) && forall i :: 0 <= i < |fields| ==> Js.KeyBefore(fields[i].key, key)
  }

  /** Assigning a key that comes after every key present appends it. */
  lemma AssignNew(fields: seq<Field>, key: string, v: Value)
    requires Appendable(fields, key) && key != PROTO
    ensures Assign(Obj(fields), key, v) == Obj(fields + [Field(key, v)])
  {
    var p := NewKeyPlace(fields, key);
    assert p == |fields|;
    assert fields[..p] == fields && fields[p..] == [];
  }

  /** In a JavaScript object, the keys that survive decoding before field i
      all precede the key of field i. */
  lemma RestoredBefore(fields: seq<Field>, i: nat)
    requires i < |fields| && KeysDistinct(fields) && InKeyOrder(fields)
    ensures Appendable(RestoredFields(fields[..i]), fields[i].key)
  {
    var rs := RestoredFields(fields[..i]);
    KeyNotBefore(fields, i);
    RestoredKeys(fields[..i], fields[i].key);
    forall m | 0 <= m < |rs|
      ensures Js.KeyBefore(rs[m].key, fields[i].key)
    {
      var g := rs[m].key;
      assert Keys(rs)[m] == g;
      if g !in Keys(fields[..i]) {
        RestoredKeys(fields[..i], g);
      }
      var n :| 0 <= n < i && Keys(fields[..i])[n] == g;
      assert fields[n].key == g;
    }
  }

  lemma SingleLiteral(l: Literal)
    ensures Strings([l]) == if l.XString? then [l.s] else []
    ensures Booleans([l]) == if l.XBoolean? then [l.b] else []
    ensures Integers([l]) == if l.XInteger? then [l.i] else []
  {
    assert [l][1..] == [];
  }

  // ---------------------------------------------------------------------
  // Decoding one field.

  lemma DecodeStr(d: Dataset, thing: Thing, obj: Obj, k: string, s: string, fuel: nat)
    requires k != "" && k != "children" && k != PROTO && Js.IndexOf(k, NOTE_NS).None? && Appendable(obj.fields, k)
    ensures DecodeEntry(d, thing, obj, Entry(Pred(k), Objects([], [XString(s)])), fuel)
         == Some(Obj(obj.fields + [Field(k, Str(s))]))
  {
    Js.SplitAfterPrefix(NOTE_NS, k);
    SingleLiteral(XString(s));
    AssignNew(obj.fields, k, Str(s));
  }

  lemma DecodeBool(d: Dataset, thing: Thing, obj: Obj, k: string, b: bool, fuel: nat)
    requires k != "" && k != "children" && k != PROTO && Js.IndexOf(k, NOTE_NS).None? && Appendable(obj.fields, k)
    ensures DecodeEntry(d, thing, obj, Entry(Pred(k), Objects([], [XBoolean(b)])), fuel)
         == Some(Obj(obj.fields + [Field(k, Bool(b))]))
  {
    Js.SplitAfterPrefix(NOTE_NS, k);
    SingleLiteral(XBoolean(b));
    AssignNew(obj.fields, k, Bool(b));
  }

  lemma DecodeInteger(d: Dataset, thing: Thing, obj: Obj, k: string, i: int, fuel: nat)
    requires k != "" && k != "children" && k != PROTO && Js.IndexOf(k, NOTE_NS).None? && Appendable(obj.fields, k)
    requires i != 0
    ensures DecodeEntry(d, thing, obj, Entry(Pred(k), Objects([], [XInteger(i)])), fuel)
         == Some(Obj(obj.fields + [Field(k, Num(Js.JsNumber(i, 0)))]))
  {
    Js.SplitAfterPrefix(NOTE_NS, k);
    SingleLiteral(XInteger(i));
    AssignNew(obj.fields, k, Num(Js.JsNumber(i, 0)));
  }

  /** A zero, or a number with a fractional part, is not read back. */
  lemma DecodeNoInteger(d: Dataset, thing: Thing, obj: Obj, k: string, l: Literal, fuel: nat)
    requires k != "" && k != "children" && Js.IndexOf(k, NOTE_NS).None?
    requires l.XDecimal? || l == XInteger(0)
    ensures DecodeEntry(d, thing, obj, Entry(Pred(k), Objects([], [l])), fuel) == Some(obj)
  {
    Js.SplitAfterPrefix(NOTE_NS, k);
    SingleLiteral(l);
  }

  /** A `__proto__` entry is read into the inherited setter: no key is made. */
  lemma DecodeProto(d: Dataset, thing: Thing, obj: Obj, e: Entry, fuel: nat)
    requires e.property == Pred(PROTO) && PROTO !in Keys(obj.fields)
    ensures DecodeEntry(d, thing, obj, e, fuel) == Some(obj)
  {
    assert Js.IndexOf(PROTO, NOTE_NS).None?;
    Js.SplitAfterPrefix(NOTE_NS, PROTO);
  }

  /** A key that is empty, or a non-array under "children", or an array
      under another key, is skipped. */
  lemma DecodeSkipped(d: Dataset, thing: Thing, obj: Obj, f: Field, e: Entry, fuel: nat)
    requires Js.IndexOf(f.key, NOTE_NS).None? && e.property == Pred(f.key)
    requires f.key == "" || (f.key == "children" && !f.value.Arr? && ObjectsOf(thing, CHILDREN).urls == [])
             || (f.key != "children" && f.value.Arr? && e.objects.literals == [])
    ensures RestoredField(f) == []
    ensures DecodeEntry(d, thing, obj, e, fuel) == Some(Obj(obj.fields + RestoredField(f)))
  {
    Js.SplitAfterPrefix(NOTE_NS, f.key);
    assert obj.fields + [] == obj.fields;
  }

  /** An array under "children" comes back as the list at its head cell. */
  lemma DecodeChildren(d: Dataset, thing: Thing, obj: Obj, f: Field, e: Entry, head: string, fuel: nat)
    requires f.key == "children" && f.value.Arr? && e.property == CHILDREN
    requires Appendable(obj.fields, "children")
    requires ObjectsOf(thing, CHILDREN).urls == [head] && head != ""
    requires ChildrenArrayFromDataset(d, head, fuel) == Some(RestoredList(f.value.items))
    ensures DecodeEntry(d, thing, obj, e, fuel) == Some(Obj(obj.fields + RestoredField(f)))
  {
    assert Js.IndexOf("children", NOTE_NS).None?;
    Js.SplitAfterPrefix(NOTE_NS, "children");
    AssignNew(obj.fields, "children", Arr(RestoredList(f.value.items)));
  }

  /** A string, boolean or number field is read back as RestoredField says. */
  lemma DecodeScalar(d: Dataset, thing: Thing, obj: Obj, f: Field, path: Path, fuel: nat)
    requires f.value.Str? || f.value.Bool? || f.value.Num?
    requires Js.IndexOf(f.key, NOTE_NS).None? && Appendable(obj.fields, f.key)
    requires f.key == "children" ==> ObjectsOf(thing, CHILDREN).urls == []
    ensures FieldEntries(f, path) != []
    ensures DecodeEntry(d, thing, obj, FieldEntries(f, path)[0], fuel) == Some(Obj(obj.fields + RestoredField(f)))
  {
    var e := FieldEntries(f, path)[0];
    if f.key == "" || f.key == "children" {
      DecodeSkipped(d, thing, obj, f, e, fuel);
    } else if f.key == PROTO {
      DecodeProto(d, thing, obj, e, fuel);
      assert obj.fields + [] == obj.fields;
    } else {
      match f.value
      case Str(s) => DecodeStr(d, thing, obj, f.key, s, fuel);
      case Bool(b) => DecodeBool(d, thing, obj, f.key, b, fuel);
      case Num(n) =>
        if Js.IsInteger(n) && Js.IntegerValue(n) != 0 {
          DecodeInteger(d, thing, obj, f.key, Js.IntegerValue(n), fuel);
        } else {
          DecodeNoInteger(d, thing, obj, f.key, NumberLiteral(n), fuel);
          assert obj.fields + [] == obj.fields;
        }
    }
  }

  lemma DecodeEntriesSnoc(d: Dataset, thing: Thing, entries: seq<Entry>, e: Entry, obj: Obj, fuel: nat)
    requires DecodeEntries(d, thing, entries, fuel) == Some(obj)
    ensures DecodeEntries(d, thing, entries + [e], fuel) == DecodeEntry(d, thing, obj, e, fuel)
  {
    assert (entries + [e])[..|entries|] == entries;
  }

  /** The entries of the fields so far, then one more field's single entry. */
  lemma DecodeEntriesClose(d: Dataset, thing: Thing, entries: seq<Entry>, e: Entry, es: seq<Entry>, obj: Obj,
                           added: seq<Field>, fuel: nat)
    requires es == [e] && DecodeEntries(d, thing, entries, fuel) == Some(obj)
    requires DecodeEntry(d, thing, obj, e, fuel) == Some(Obj(obj.fields + added))
    ensures DecodeEntries(d, thing, entries + es, fuel) == Some(Obj(obj.fields + added))
  {
    DecodeEntriesSnoc(d, thing, entries, e, obj, fuel);
  }

  lemma {:induction false} KeyNotBefore(fields: seq<Field>, i: nat)
    requires i < |fields| && KeysDistinct(fields)
    ensures fields[i].key !in Keys(fields[..i])
  {
    var ks := Keys(fields[..i]);
    forall j | 0 <= j < |ks|
      ensures ks[j] != fields[i].key
    {
      assert ks[j] == fields[..i][j].key == fields[j].key;
    }
  }

  lemma CellUrlNotNil(path: Path)
    ensures CellUrl(path) != RDF_NIL && CellUrl(path) != ""
  {
    assert CellUrl(path)[4] == LOCAL_NODE[4] == 's';
    assert RDF_NIL[4] == ':';
  }

  // ---------------------------------------------------------------------
  // Decoding a stored document, by induction on its structure.

  /** The list stored at path reads back as its restored elements. */
  lemma {:induction false} DecodeList(d: Dataset, items: seq<Obj>, path: Path, fuel: nat)
    requires |path| > 0 && ListStored(d, items, path) && ListSound(items, path) && fuel >= SizeList(items)
    ensures ThingsToArray(d, d[CellUrl(path)], fuel) == Some(RestoredList(items))
    decreases items, 2
  {
    CellLinks(d, items, path);
    ListParts(d, items, path, fuel);
    var f: nat := fuel - 1;
    var cell := d[CellUrl(path)];
    var first := d[RecordUrl(items[0], path)];
    var o := Restored(items[0]);
    DecodeObj(d, items[0], path, f);
    if |items| > 1 {
      var next := d[CellUrl(PathAt(path, 1))];
      DecodeList(d, items[1..], PathAt(path, 1), f);
      ThingsToArrayMore(d, cell, fuel, f, first, o, next, RestoredList(items[1..]));
    } else {
      ThingsToArrayLast(d, cell, fuel, f, first, o);
      assert RestoredList(items) == [o] by {
        assert items[1..] == [];
      }
    }
  }

  lemma ListParts(d: Dataset, items: seq<Obj>, path: Path, fuel: nat)
    requires |path| > 0 && ListStored(d, items, path) && ListSound(items, path) && fuel >= SizeList(items)
    ensures fuel > 0 && ObjStored(d, items[0], path) && ObjSound(items[0], path) && fuel - 1 >= SizeObj(items[0])
    ensures |items| > 1 ==>
              && ListStored(d, items[1..], PathAt(path, 1)) && ListSound(items[1..], PathAt(path, 1))
              && fuel - 1 >= SizeList(items[1..])
  {
  }

  lemma ThingsToArrayLast(d: Dataset, cell: Thing, fuel: nat, f: nat, first: Thing, o: Obj)
    requires fuel == f + 1 && FirstThing(d, cell) == Some(first) && ObjectFromThing(d, first, f) == Some(o)
    requires RestThing(d, cell).None?
    ensures ThingsToArray(d, cell, fuel) == Some([o])
  {
  }

  lemma ThingsToArrayMore(d: Dataset, cell: Thing, fuel: nat, f: nat, first: Thing, o: Obj, next: Thing, os: seq<Obj>)
    requires fuel == f + 1 && FirstThing(d, cell) == Some(first) && ObjectFromThing(d, first, f) == Some(o)
    requires RestThing(d, cell) == Some(next) && ThingsToArray(d, next, f) == Some(os)
    ensures ThingsToArray(d, cell, fuel) == Some([o] + os)
  {
  }

  /** A stored cell names the record of its element and the next cell. */
  lemma CellLinks(d: Dataset, items: seq<Obj>, path: Path)
    requires |path| > 0 && ListStored(d, items, path)
    ensures CellUrl(path) in d && RecordUrl(items[0], path) in d
    ensures |items| > 1 ==> CellUrl(PathAt(path, 1)) in d
    ensures FirstThing(d, d[CellUrl(path)]) == Some(d[RecordUrl(items[0], path)])
    ensures RestThing(d, d[CellUrl(path)]) == if |items| > 1 then Some(d[CellUrl(PathAt(path, 1))]) else None
  {
    ListCellLinks(path, RecordUrl(items[0], path), NextUrl(items, path));
    if |items| > 1 {
      CellUrlNotNil(PathAt(path, 1));
    }
  }

  /** The record of o reads back as the restored o. */
  lemma {:induction false} DecodeObj(d: Dataset, o: Obj, path: Path, fuel: nat)
    requires |path| > 0 && ObjStored(d, o, path) && ObjSound(o, path) && fuel >= SizeObj(o)
    ensures ObjectFromThing(d, d[RecordUrl(o, path)], fuel) == Some(Restored(o))
    decreases o, 2
  {
    DecodePrefix(d, o, path, fuel, |o.fields|);
    assert o.fields[..|o.fields|] == o.fields;
  }

  /** After the predicates of the first j fields, the object holds what
      survives of those fields. */
  lemma {:induction false} DecodePrefix(d: Dataset, o: Obj, path: Path, fuel: nat, j: nat)
    requires |path| > 0 && ObjStored(d, o, path) && ObjSound(o, path) && fuel >= SizeObj(o)
    requires j <= |o.fields|
    ensures DecodeEntries(d, Record(o, path), EntriesOf(o.fields[..j], path), fuel)
         == Some(Obj(RestoredFields(o.fields[..j])))
    decreases o, 1, j
  {
    if j == 0 {
      assert o.fields[..0] == [];
    } else {
      var k: nat := j - 1;
      DecodePrefix(d, o, path, fuel, k);
      DecodeField(d, o, path, fuel, k);
      EntriesOfSnoc(o.fields, path, k);
      RestoredFieldsSnoc(o.fields, k);
      assert k + 1 == j;
    }
  }

  /** The predicate of field i adds what survives of that field. */
  lemma {:induction false} DecodeField(d: Dataset, o: Obj, path: Path, fuel: nat, i: nat)
    requires |path| > 0 && ObjStored(d, o, path) && ObjSound(o, path) && fuel >= SizeObj(o)
    requires i < |o.fields|
    requires DecodeEntries(d, Record(o, path), EntriesOf(o.fields[..i], path), fuel)
          == Some(Obj(RestoredFields(o.fields[..i])))
    ensures DecodeEntries(d, Record(o, path), EntriesOf(o.fields[..i], path) + FieldEntries(o.fields[i], path), fuel)
         == Some(Obj(RestoredFields(o.fields[..i]) + RestoredField(o.fields[i])))
    decreases o, 0, 2
  {
    var f := o.fields[i];
    if f.value.Nullish? || f.value.Opaque? {
      assert FieldEntries(f, path) == [] && RestoredField(f) == [];
      DecodeUnreadField(d, Record(o, path), EntriesOf(o.fields[..i], path), FieldEntries(f, path),
                        RestoredFields(o.fields[..i]), RestoredField(f), fuel);
    } else if f.value.Arr? {
      DecodeArrayField(d, o, path, fuel, i);
    } else {
      DecodeScalarField(d, o, path, fuel, i);
    }
  }

  /** DecodeField for a value the encoder stores nothing for. */
  lemma DecodeUnreadField(d: Dataset, rec: Thing, xs: seq<Entry>, es: seq<Entry>, fields: seq<Field>,
                          added: seq<Field>, fuel: nat)
    requires es == [] && added == []
    requires DecodeEntries(d, rec, xs, fuel) == Some(Obj(fields))
    ensures DecodeEntries(d, rec, xs + es, fuel) == Some(Obj(fields + added))
  {
    assert xs + es == xs && fields + added == fields;
  }

  /** DecodeField for an array field. */
  lemma DecodeArrayField(d: Dataset, o: Obj, path: Path, fuel: nat, i: nat)
    requires |path| > 0 && ObjStored(d, o, path) && ObjSound(o, path) && fuel >= SizeObj(o)
    requires i < |o.fields| && o.fields[i].value.Arr?
    requires DecodeEntries(d, Record(o, path), EntriesOf(o.fields[..i], path), fuel)
          == Some(Obj(RestoredFields(o.fields[..i])))
    ensures DecodeEntries(d, Record(o, path), EntriesOf(o.fields[..i], path) + FieldEntries(o.fields[i], path), fuel)
         == Some(Obj(RestoredFields(o.fields[..i]) + RestoredField(o.fields[i])))
    decreases o, 0, 1
  {
    var f := o.fields[i];
    var rec := Record(o, path);
    var xs := EntriesOf(o.fields[..i], path);
    var obj := Obj(RestoredFields(o.fields[..i]));
    RestoredBefore(o.fields, i);
    var e := FieldEntries(f, path)[0];
    assert FieldEntries(f, path) == [e];
    EntriesLookup(o.fields, path, i);
    DecodeArray(d, o, path, fuel, i, obj);
    DecodeEntriesClose(d, rec, xs, e, FieldEntries(f, path), obj, RestoredField(f), fuel);
  }

  /** DecodeField for a string, boolean or number field. */
  lemma DecodeScalarField(d: Dataset, o: Obj, path: Path, fuel: nat, i: nat)
    requires |path| > 0 && ObjStored(d, o, path) && ObjSound(o, path) && fuel >= SizeObj(o)
    requires i < |o.fields| && (o.fields[i].value.Str? || o.fields[i].value.Bool? || o.fields[i].value.Num?)
    requires DecodeEntries(d, Record(o, path), EntriesOf(o.fields[..i], path), fuel)
          == Some(Obj(RestoredFields(o.fields[..i])))
    ensures DecodeEntries(d, Record(o, path), EntriesOf(o.fields[..i], path) + FieldEntries(o.fields[i], path), fuel)
         == Some(Obj(RestoredFields(o.fields[..i]) + RestoredField(o.fields[i])))
    decreases o, 0, 1
  {
    var f := o.fields[i];
    var rec := Record(o, path);
    var xs := EntriesOf(o.fields[..i], path);
    var obj := Obj(RestoredFields(o.fields[..i]));
    RestoredBefore(o.fields, i);
    var e := FieldEntries(f, path)[0];
    assert FieldEntries(f, path) == [e];
    EntriesLookup(o.fields, path, i);
    DecodeScalar(d, rec, obj, f, path, fuel);
    DecodeEntriesClose(d, rec, xs, e, FieldEntries(f, path), obj, RestoredField(f), fuel);
  }

  /** An array field: under "children" the list at its head cell is read
      back; under any other key it is skipped. */
  lemma {:induction false} DecodeArray(d: Dataset, o: Obj, path: Path, fuel: nat, i: nat, obj: Obj)
    requires |path| > 0 && ObjStored(d, o, path) && ObjSound(o, path) && fuel >= SizeObj(o)
    requires i < |o.fields| && o.fields[i].value.Arr? && Appendable(obj.fields, o.fields[i].key)
    requires ObjectsIn(EntriesOf(o.fields, path), Pred(o.fields[i].key)) == FieldEntries(o.fields[i], path)[0].objects
    ensures DecodeEntry(d, Record(o, path), obj, FieldEntries(o.fields[i], path)[0], fuel)
         == Some(Obj(obj.fields + RestoredField(o.fields[i])))
    decreases o, 0, 0
  {
    var f := o.fields[i];
    var head := CellUrl(path + [0]);
    ArrayEntry(f, path);
    var e := FieldEntries(f, path)[0];
    assert Js.IndexOf(f.key, NOTE_NS).None?;
    if f.key == "children" {
      FieldAt(d, o.fields, path, i);
      CellUrlNotNil(path + [0]);
      assert f in o.fields;
      DecodeChildList(d, f.value.items, path + [0], fuel);
      assert Pred(f.key) == CHILDREN;
      RecordObjects(o, path, CHILDREN);
      DecodeChildren(d, Record(o, path), obj, f, e, head, fuel);
    } else {
      DecodeSkipped(d, Record(o, path), obj, f, e, fuel);
    }
  }

  lemma ArrayEntry(f: Field, path: Path)
    requires f.value.Arr?
    ensures FieldEntries(f, path) == [Entry(Pred(f.key), Objects([CellUrl(path + [0])], []))]
  {
  }

  lemma RecordObjects(o: Obj, path: Path, p: string)
    requires |path| > 0
    ensures ObjectsOf(Record(o, path), p) == ObjectsIn(EntriesOf(o.fields, path), p)
  {
  }

  /** The children array read from a stored list's head cell. */
  lemma {:induction false} DecodeChildList(d: Dataset, items: seq<Obj>, path: Path, fuel: nat)
    requires |path| > 0 && ListStored(d, items, path) && ListSound(items, path) && fuel >= SizeList(items)
    ensures ChildrenArrayFromDataset(d, CellUrl(path), fuel) == Some(RestoredList(items))
    decreases items, 3
  {
    DecodeList(d, items, path, fuel);
  }

  // ---------------------------------------------------------------------
  // The round trip.

  /** The dataset the encoding of a note body is stored into: every thing
      set, in order, into an empty dataset. */
  function Stored(body: seq<Obj>): Dataset
    requires body != [] && ItemsEncode(body)
  {
    StoreAll(EncodeList(body, [0]).value, map[])
  }

  /** A note body stored as RDF and read back from its list's head cell
      comes back as the part of it that survives encoding, given distinct
      names for its things and fuel for every list cell. */
  lemma RoundTrip(body: seq<Obj>, fuel: nat)
    requires body != [] && ItemsEncode(body) && ListSound(body, [0]) && fuel >= SizeList(body)
    ensures EncodeList(body, [0]).Ok?
    ensures EncodeList(body, [0]).value[0].Some? && EncodeList(body, [0]).value[0].value.url == CellUrl([0])
    ensures CellUrl([0]) in Stored(body)
    ensures ThingsToArray(Stored(body), Stored(body)[CellUrl([0])], fuel) == Some(RestoredList(body))
  {
    EncodeListStores(body, [0], map[]);
    DecodeList(Stored(body), body, [0], fuel);
  }

  // ---------------------------------------------------------------------
  // Documents that survive whole.

  /** Every key non-empty and not `__proto__`; strings and booleans not under "children";
      numbers non-zero integers written without a fraction; arrays only
      under "children", of such elements; no undefined or other values. */
  predicate FaithfulField(f: Field)
    decreases f, 0
  {
    && f.key != "" && f.key != PROTO
    && match f.value
       case Str(_) => f.key != "children"
       case Bool(_) => f.key != "children"
       case Num(n) => f.key != "children" && n.scale == 0 && n.digits != 0
       case Arr(items) => f.key == "children" && FaithfulList(items)
       case Nullish => false
       case Opaque => false
  }

  predicate FaithfulFields(fields: seq<Field>)
    decreases fields, 1
  {
    fields == [] || (FaithfulField(fields[0]) && FaithfulFields(fields[1..]))
  }

  predicate FaithfulList(items: seq<Obj>)
    decreases items, 0
  {
    items == [] || (FaithfulFields(items[0].fields) && FaithfulList(items[1..]))
  }

  /** A faithful document is its own restoration. */
  lemma {:induction false} RestoredListIdentity(items: seq<Obj>)
    requires FaithfulList(items)
    ensures RestoredList(items) == items
    decreases items, 1
  {
    if items != [] {
      RestoredFieldsIdentity(items[0].fields);
      RestoredListIdentity(items[1..]);
      assert items == [items[0]] + items[1..];
    }
  }

  lemma {:induction false} RestoredFieldsIdentity(fields: seq<Field>)
    requires FaithfulFields(fields)
    ensures RestoredFields(fields) == fields
    decreases fields, 0
  {
    if fields != [] {
      RestoredFieldIdentity(fields[0]);
      RestoredFieldsIdentity(fields[1..]);
      assert fields == [fields[0]] + fields[1..];
    }
  }

  lemma {:induction false} RestoredFieldIdentity(f: Field)
    requires FaithfulField(f)
    ensures RestoredField(f) == [f]
    decreases f, 0
  {
    match f.value
    case Arr(items) => RestoredListIdentity(items);
    case Num(n) => assert Js.Pow10(0) == 1;
    case _ =>
  }

  /** Whatever decoding gives back is faithful: encoding and decoding it
      again changes nothing more. */
  lemma {:induction false} RestoredListFaithful(items: seq<Obj>)
    ensures FaithfulList(RestoredList(items))
    decreases items, 1
  {
    if items != [] {
      RestoredFieldsFaithful(items[0].fields);
      RestoredListFaithful(items[1..]);
      assert RestoredList(items)[1..] == RestoredList(items[1..]);
    }
  }

  lemma {:induction false} RestoredFieldsFaithful(fields: seq<Field>)
    ensures FaithfulFields(RestoredFields(fields))
    decreases fields, 0
  {
    if fields != [] {
      RestoredFieldFaithful(fields[0]);
      RestoredFieldsFaithful(fields[1..]);
      FaithfulFieldsAppend(RestoredField(fields[0]), RestoredFields(fields[1..]));
    }
  }

  lemma {:induction false} RestoredFieldFaithful(f: Field)
    ensures FaithfulFields(RestoredField(f))
    decreases f, 0
  {
    var r := RestoredField(f);
    if r != [] {
      assert r[1..] == [];
      match f.value
      case Arr(items) => RestoredListFaithful(items);
      case Num(n) => assert FaithfulField(r[0]);
      case Str(_) => assert FaithfulField(r[0]);
      case Bool(_) => assert FaithfulField(r[0]);
    }
  }

  lemma {:induction false} FaithfulFieldsAppend(a: seq<Field>, b: seq<Field>)
    requires FaithfulFields(a) && FaithfulFields(b)
    ensures FaithfulFields(a + b)
  {
    if a != [] {
      assert (a + b)[1..] == a[1..] + b;
      FaithfulFieldsAppend(a[1..], b);
    } else {
      assert a + b == b;
    }
  }

  /** Restoring twice is restoring once. */
  lemma RestoredIdempotent(items: seq<Obj>)
    ensures RestoredList(RestoredList(items)) == RestoredList(items)
  {
    RestoredListFaithful(items);
    RestoredListIdentity(RestoredList(items));
  }

  /** A faithful note body round-trips exactly. */
  lemma RoundTripExact(body: seq<Obj>, fuel: nat)
    requires body != [] && ItemsEncode(body) && ListSound(body, [0]) && fuel >= SizeList(body)
    requires FaithfulList(body)
    ensures CellUrl([0]) in Stored(body)
    ensures ThingsToArray(Stored(body), Stored(body)[CellUrl([0])], fuel) == Some(body)
  {
    RoundTrip(body, fuel);
    RestoredListIdentity(body);
  }

  // ---------------------------------------------------------------------
  // An instance: a paragraph holding one text leaf.

  function ExampleLeaf(): Obj {
    Obj([Field("text", Str("hi"))])
  }

  function ExampleBody(): seq<Obj> {
    [Obj([Field("type", Str("p")), Field("children", Arr([ExampleLeaf()]))])]
  }

  lemma ExampleNames()
    ensures CellUrl([0]) == LOCAL_NODE + "li-0" && CellUrl([0, 0]) == LOCAL_NODE + "li-0-0"
    ensures RecordUrl(ExampleBody()[0], [0]) == LOCAL_NODE + "el-0"
    ensures RecordUrl(ExampleLeaf(), [0, 0]) == LOCAL_NODE + "el-0-0"
  {
    assert Js.NatText(0) == "0";
    assert JoinPath([0]) == "0";
    assert [0, 0][1..] == [0];
    assert JoinPath([0, 0]) == "0-0";
  }

  lemma ExampleSound()
    ensures ItemsEncode(ExampleBody()) && ListSound(ExampleBody(), [0]) && FaithfulList(ExampleBody())
    ensures SizeList(ExampleBody()) == 2
  {
    ExampleNames();
    var leaf := ExampleLeaf();
    var top := ExampleBody()[0];
    assert [0] + [0] == [0, 0];
    assert ListUrls([leaf], [0, 0]) == {LOCAL_NODE + "li-0-0", LOCAL_NODE + "el-0-0"};
    assert ObjUrls(top, [0]) == {LOCAL_NODE + "el-0", LOCAL_NODE + "li-0-0", LOCAL_NODE + "el-0-0"};
    assert (LOCAL_NODE + "li-0")[|LOCAL_NODE|] == 'l';
    assert (LOCAL_NODE + "el-0")[|LOCAL_NODE|] == 'e';
    assert |LOCAL_NODE + "li-0"| < |LOCAL_NODE + "li-0-0"|;
    assert (LOCAL_NODE + "li-0-0")[|LOCAL_NODE|] == 'l';
    assert (LOCAL_NODE + "el-0-0")[|LOCAL_NODE|] == 'e';
    assert |LOCAL_NODE + "el-0"| < |LOCAL_NODE + "el-0-0"|;
  }

  /** The example body is read back exactly as it was written. */
  lemma ExampleRoundTrip()
    ensures CellUrl([0]) in Stored(ExampleBody())
    ensures ThingsToArray(Stored(ExampleBody()), Stored(ExampleBody())[CellUrl([0])], 2) == Some(ExampleBody())
  {
    ExampleSound();
    RoundTripExact(ExampleBody(), 2);
  }
}

/** The note-body codec: a Slate document (an array of JSON objects) becomes
    one record per object, with one predicate per key in the note namespace,
    and a chain of list cells for every array; a record is read back into an
    object predicate by predicate. */
module Note {
  import opened Wrappers
  import opened Rdf
  import opened Vocab
  import Js
  import opened Collections

  /** A JSON value as the codec sees it. Nullish is `null` or `undefined`;
      Opaque is any other value that is neither a string, a boolean, a
      number nor an array (a plain object, say). */
  datatype Value =
    | Str(s: string)
    | Bool(b: bool)
    | Num(n: Js.JsNumber)
    | Arr(items: seq<Obj>)
    | Nullish
    | Opaque

  /** One key of an object with its value. */
  datatype Field = Field(key: string, value: Value)

  /** A JSON object, its fields in `Object.keys` order. */
  datatype Obj = Obj(fields: seq<Field>)

  /** The encoder throws when it reads `id` of the `undefined` element that
      an empty array hands to the converter. */
  datatype EncodeError = UndefinedElement

  /** `noteNS(key)` */
  function Pred(key: string): string {
    NOTE_NS + key
  }

  /** `childrenPred` */
  const CHILDREN: string := Pred("children")

  /** The keys of an object, in order. */
  function Keys(fields: seq<Field>): (ks: seq<string>)
    ensures |ks| == |fields| && forall i :: 0 <= i < |fields| ==> ks[i] == fields[i].key
  {
    if fields == [] then [] else [fields[0].key] + Keys(fields[1..])
  }

  /** `o[key]`: undefined when the object has no such key. */
  function Get(fields: seq<Field>, key: string): Value {
    if fields == [] then Nullish
    else if fields[0].key == key then fields[0].value
    else Get(fields[1..], key)
  }

  lemma {:induction false} KeysAppend(a: seq<Field>, b: seq<Field>)
    ensures Keys(a + b) == Keys(a) + Keys(b)
  {
    if a != [] {
      assert (a + b)[1..] == a[1..] + b;
      KeysAppend(a[1..], b);
    } else {
      assert a + b == b;
    }
  }

  /** No key appears twice. */
  predicate KeysDistinct(fields: seq<Field>) {
    forall i, j :: 0 <= i < j < |fields| ==> fields[i].key != fields[j].key
  }

  /** The keys are in the order JavaScript lists an object's own keys. */
  predicate InKeyOrder(fields: seq<Field>) {
    forall i, j :: 0 <= i < j < |fields| ==> Js.KeyBefore(fields[i].key, fields[j].key)
  }

  /** The fields of an object as `Object.keys` and `for...in` list them. */
  predicate IsJsObject(o: Obj) {
    KeysDistinct(o.fields) && InKeyOrder(o.fields)
  }

  /** Where a key the object lacks is created: after every key that may
      precede it, that is last unless it is an array index, and then after
      the smaller array indices. */
  function NewKeyPlace(fields: seq<Field>, key: string): (p: nat)
    ensures p <= |fields|
    ensures forall i :: 0 <= i < p ==> Js.KeyBefore(fields[i].key, key)
    ensures p < |fields| ==> !Js.KeyBefore(fields[p].key, key)
  {
    if fields == [] || !Js.KeyBefore(fields[0].key, key) then 0
    else 1 + NewKeyPlace(fields[1..], key)
  }

  /** The key whose assignment an ordinary object inherits as a setter. */
  const PROTO: string := "__proto__"

  /** `obj[key] = v`: an existing key keeps its place; a new key is created
      where JavaScript orders it, so the result is again a JavaScript object.
      Assigning `__proto__` to an object without that own key runs the
      inherited setter, which creates no own key. */
  function Assign(o: Obj, key: string, v: Value): (r: Obj)
    ensures key != PROTO || key in Keys(o.fields) ==> Get(r.fields, key) == v
    ensures key == PROTO && key !in Keys(o.fields) ==> r == o
    ensures forall k :: k != key ==> Get(r.fields, k) == Get(o.fields, k)
    ensures key in Keys(o.fields) ==> Keys(r.fields) == Keys(o.fields)
    ensures key !in Keys(o.fields) && key != PROTO ==>
              var p := NewKeyPlace(o.fields, key);
              Keys(r.fields) == Keys(o.fields[..p]) + [key] + Keys(o.fields[p..])
    ensures IsJsObject(o) ==> IsJsObject(r)
  {
    if key in Keys(o.fields) then Obj(Replace(o.fields, key, v))
    else if key == PROTO then o
    else
      var p := NewKeyPlace(o.fields, key);
      InsertNew(o.fields, key, v);
      Obj(o.fields[..p] + [Field(key, v)] + o.fields[p..])
  }

  /** A key the fields lack, inserted where JavaScript creates it. */
  lemma InsertNew(fields: seq<Field>, key: string, v: Value)
    requires key !in Keys(fields)
    ensures var p := NewKeyPlace(fields, key);
            var r := fields[..p] + [Field(key, v)] + fields[p..];
            Get(r, key) == v && (forall k :: k != key ==> Get(r, k) == Get(fields, k)) &&
            Keys(r) == Keys(fields[..p]) + [key] + Keys(fields[p..]) &&
            (IsJsObject(Obj(fields)) ==> IsJsObject(Obj(r)))
  {
    var p := NewKeyPlace(fields, key);
    GetInsert(fields, p, key, v);
    KeysInsert(fields, p, Field(key, v));
    InsertKeepsOrder(fields, key, v);
  }

  lemma KeysInsert(fields: seq<Field>, p: nat, f: Field)
    requires p <= |fields|
    ensures Keys(fields[..p] + [f] + fields[p..]) == Keys(fields[..p]) + [f.key] + Keys(fields[p..])
  {
    KeysAppend(fields[..p] + [f], fields[p..]);
    KeysAppend(fields[..p], [f]);
  }

  /** The value of a key the object has, replaced in place. */
  function Replace(fields: seq<Field>, key: string, v: Value): (r: seq<Field>)
    requires key in Keys(fields)
    ensures Get(r, key) == v
    ensures forall k :: k != key ==> Get(r, k) == Get(fields, k)
    ensures Keys(r) == Keys(fields)
  {
    if fields[0].key == key then [Field(key, v)] + fields[1..]
    else
      assert Keys(fields) == [fields[0].key] + Keys(fields[1..]);
      var r := [fields[0]] + Replace(fields[1..], key, v);
      assert r[1..] == Replace(fields[1..], key, v);
      assert Keys(r) == [fields[0].key] + Keys(Replace(fields[1..], key, v));
      r
  }

  lemma {:induction false} GetInsert(fields: seq<Field>, p: nat, key: string, v: Value)
    requires p <= |fields| && key !in Keys(fields)
    ensures forall k :: Get(fields[..p] + [Field(key, v)] + fields[p..], k) == if k == key then v else Get(fields, k)
  {
    var r := fields[..p] + [Field(key, v)] + fields[p..];
    if p > 0 {
      assert Keys(fields) == [fields[0].key] + Keys(fields[1..]);
      GetInsert(fields[1..], p - 1, key, v);
      assert r[0] == fields[0];
      assert r[1..] == fields[1..][..p - 1] + [Field(key, v)] + fields[1..][p - 1..];
    } else {
      assert r[1..] == fields;
    }
  }

  lemma InsertKeepsOrder(fields: seq<Field>, key: string, v: Value)
    requires key !in Keys(fields)
    ensures IsJsObject(Obj(fields)) ==>
              IsJsObject(Obj(fields[..NewKeyPlace(fields, key)] + [Field(key, v)] + fields[NewKeyPlace(fields, key)..]))
  {
    var p := NewKeyPlace(fields, key);
    var r := fields[..p] + [Field(key, v)] + fields[p..];
    var ks := Keys(fields);
    if IsJsObject(Obj(fields)) {
      InsertKeysOrdered(fields, key);
      var rk := ks[..p] + [key] + ks[p..];
      InsertAt(fields, p, Field(key, v));
      InsertAt(ks, p, key);
      assert forall i :: 0 <= i < |r| ==> r[i].key == rk[i];
    }
  }

  /** Where each element of a sequence lands when one element is inserted. */
  lemma InsertAt<T>(s: seq<T>, p: nat, x: T)
    requires p <= |s|
    ensures var r := s[..p] + [x] + s[p..];
            |r| == |s| + 1 && r[p] == x &&
            (forall i :: 0 <= i < p ==> r[i] == s[i]) &&
            (forall i :: p < i <= |s| ==> r[i] == s[i - 1])
  {
  }

  /** The keys of a JavaScript object with a new key inserted where it is
      created are distinct and in order. */
  lemma InsertKeysOrdered(fields: seq<Field>, key: string)
    requires IsJsObject(Obj(fields)) && key !in Keys(fields)
    ensures var ks := Keys(fields);
            var p := NewKeyPlace(fields, key);
            var rk := ks[..p] + [key] + ks[p..];
            forall i, j :: 0 <= i < j < |rk| ==> rk[i] != rk[j] && Js.KeyBefore(rk[i], rk[j])
  {
    var p := NewKeyPlace(fields, key);
    Js.KeyBeforeTransitive();
    if p < |fields| {
      InsertedBefore(fields, key);
    }
    InsertOrdered(Keys(fields), key, p, Js.KeyBefore);
  }

  /** Inserting a key at a place after its predecessors and before its
      successors keeps a list of distinct, ordered keys so. The order is a
      parameter, so that only its transitivity is used. */
  lemma InsertOrdered(ks: seq<string>, key: string, p: nat, before: (string, string) -> bool)
    requires p <= |ks| && key !in ks
    requires forall a, b, c :: before(a, b) && before(b, c) ==> before(a, c)
    requires forall i, j :: 0 <= i < j < |ks| ==> ks[i] != ks[j] && before(ks[i], ks[j])
    requires forall i :: 0 <= i < p ==> before(ks[i], key)
    requires p < |ks| ==> before(key, ks[p])
    ensures var r := ks[..p] + [key] + ks[p..];
            forall i, j :: 0 <= i < j < |r| ==> r[i] != r[j] && before(r[i], r[j])
  {
    var r := ks[..p] + [key] + ks[p..];
    forall i, j | 0 <= i < j < |r|
      ensures r[i] != r[j] && before(r[i], r[j])
    {
      if j < p {
        assert r[i] == ks[i] && r[j] == ks[j];
      } else if i > p {
        assert r[i] == ks[i - 1] && r[j] == ks[j - 1];
      } else if j == p {
        assert r[i] == ks[i] && r[j] == key;
      } else if i < p {
        assert r[i] == ks[i] && r[j] == ks[j - 1];
      } else {
        assert r[i] == key && r[j] == ks[j - 1];
        if j - 1 > p {
          assert before(ks[p], ks[j - 1]);
        }
      }
    }
  }

  /** A new key precedes the key at the place it is created. */
  lemma InsertedBefore(fields: seq<Field>, key: string)
    requires IsJsObject(Obj(fields)) && key !in Keys(fields)
    requires NewKeyPlace(fields, key) < |fields|
    ensures Js.KeyBefore(key, fields[NewKeyPlace(fields, key)].key)
  {
    var p := NewKeyPlace(fields, key);
    var b := fields[p].key;
    assert Keys(fields)[p] == b;
    if Js.IsArrayIndex(b) && Js.DigitsValue(b) == Js.DigitsValue(key) {
      Js.ArrayIndexInjective(b, key);
    }
  }

  /** JavaScript truthiness of a value. */
  predicate Truthy(v: Value) {
    match v
    case Str(s) => s != ""
    case Bool(b) => b
    case Num(n) => Js.NumberTruthy(n)
    case Arr(_) => true
    case Nullish => false
    case Opaque => true
  }

  /** `${v}` for a truthy value (a falsy one is never turned into a name). */
  function Text(v: Value): string {
    match v
    case Str(s) => s
    case Bool(b) => if b then "true" else "false"
    case Num(n) => Js.NumberText(n)
    case Arr(items) => ObjectsText(|items|)
    // never reached: a nullish id is falsy, and RecordName only names truthy ones
    case Nullish => ""
    case Opaque => "[object Object]"
  }

  /** An array of n objects as a string: "[object Object]" n times, joined by ",". */
  function ObjectsText(n: nat): string {
    if n == 0 then "" else if n == 1 then "[object Object]" else "[object Object]," + ObjectsText(n - 1)
  }

  /** The local name of the record of o at path: `${o.id}` when o.id is
      truthy, `el-` and the path otherwise. */
  function RecordName(o: Obj, path: Path): string {
    var id := Get(o.fields, "id");
    if Truthy(id) then Text(id) else "el-" + JoinPath(path)
  }

  function RecordUrl(o: Obj, path: Path): string {
    LOCAL_NODE + RecordName(o, path)
  }

  // ---------------------------------------------------------------------
  // When the encoder succeeds: no array anywhere in the document is empty.

  predicate ValueEncodes(v: Value)
    decreases v, 1
  {
    v.Arr? ==> v.items != [] && ItemsEncode(v.items)
  }

  predicate FieldsEncode(fields: seq<Field>)
    decreases fields, 0
  {
    fields == [] || (ValueEncodes(fields[0].value) && FieldsEncode(fields[1..]))
  }

  predicate ItemsEncode(items: seq<Obj>)
    decreases items, 0
  {
    items == [] || (FieldsEncode(items[0].fields) && ItemsEncode(items[1..]))
  }

  // ---------------------------------------------------------------------
  // Encoding.

  /** `addKeyValToThing`: the record with the value written under key, and
      the things an array value brings with it (its cells and whatever its
      elements become). Scalars replace every earlier value of key; a number
      is an integer literal when it is integral and a decimal otherwise;
      anything else leaves the record as it was. */
  function AddKeyValToThing(thing: Thing, key: string, value: Value, path: Path): (r: Result<(Thing, seq<Slot>), EncodeError>)
    requires |path| > 0
    ensures r.Ok? <==> ValueEncodes(value)
    ensures r.Ok? ==> r.value.0.url == thing.url
    decreases value, 2
  {
    match value
    case Arr(items) =>
      (match EncodeList(items, path + [0])
       case Err(e) => Err(e)
       case Ok(slots) => Ok((AddUrl(thing, key, slots[0].value.url), slots)))
    case Str(s) => Ok((SetLiteral(thing, key, XString(s)), []))
    case Bool(b) => Ok((SetLiteral(thing, key, XBoolean(b)), []))
    case Num(n) =>
      if Js.IsInteger(n) then Ok((SetLiteral(thing, key, XInteger(Js.IntegerValue(n))), []))
      else Ok((SetLiteral(thing, key, XDecimal(n)), []))
    case Nullish => Ok((thing, []))
    case Opaque => Ok((thing, []))
  }

  /** The `Object.keys(o).reduce(...)` of createThingFromSlateJSOElement:
      each key in turn updates the record, and the things its value brings
      are appended to acc. */
  function FoldFields(fields: seq<Field>, record: Thing, acc: seq<Slot>, path: Path): (r: Result<(Thing, seq<Slot>), EncodeError>)
    requires |path| > 0
    ensures r.Ok? <==> FieldsEncode(fields)
    ensures r.Ok? ==> r.value.0.url == record.url
    decreases fields, 1
  {
    if fields == [] then Ok((record, acc))
    else
      match AddKeyValToThing(record, Pred(fields[0].key), fields[0].value, path)
      case Err(e) => Err(e)
      case Ok(step) => FoldFields(fields[1..], step.0, acc + step.1, path)
  }

  /** `createThingFromSlateJSOElement`: the empty thing named after o, the
      record holding o's keys (same URL, so it takes the empty one's place in
      a dataset), then the things o's arrays bring. */
  function CreateThingFromSlateJSOElement(o: Obj, path: Path): (r: Result<seq<Slot>, EncodeError>)
    requires |path| > 0
    ensures r.Ok? <==> FieldsEncode(o.fields)
    ensures r.Ok? ==> |r.value| >= 2 && r.value[0] == Some(CreateThing(RecordName(o, path)))
    ensures r.Ok? ==> r.value[1].Some? && r.value[1].value.url == RecordUrl(o, path)
    decreases o, 0
  {
    var blank := CreateThing(RecordName(o, path));
    match FoldFields(o.fields, blank, [], path)
    case Err(e) => Err(e)
    case Ok(built) => Ok([Some(blank), Some(built.0)] + built.1)
  }

  /** The converter applied to every element, element i at PathAt(path, i). */
  function ConvertAll(items: seq<Obj>, path: Path): (r: Result<seq<seq<Slot>>, EncodeError>)
    requires |path| > 0
    ensures r.Ok? <==> ItemsEncode(items)
    ensures r.Ok? ==> |r.value| == |items| && ConverterOutput(r.value)
    ensures r.Ok? ==> forall i :: 0 <= i < |items| ==> r.value[i][0].value.url == RecordUrl(items[i], PathAt(path, i))
    decreases items, 1
  {
    if items == [] then Ok([])
    else
      match CreateThingFromSlateJSOElement(items[0], path)
      case Err(e) => Err(e)
      case Ok(first) =>
        match ConvertAll(items[1..], PathAt(path, 1))
        case Err(e) => Err(e)
        case Ok(rest) =>
          ConvertedCons(items, path, first, rest, RecordUrl);
          Ok([first] + rest)
  }

  /** What the converter made of the head, in front of what it made of the
      tail: element i is named name(items[i], PathAt(path, i)). */
  lemma ConvertedCons(items: seq<Obj>, path: Path, first: seq<Slot>, rest: seq<seq<Slot>>, name: (Obj, Path) -> string)
    requires |path| > 0 && items != []
    requires |first| > 0 && first[0].Some? && first[0].value.url == name(items[0], path)
    requires |rest| == |items| - 1 && ConverterOutput(rest)
    requires forall i :: 0 <= i < |rest| ==> rest[i][0].value.url == name(items[1..][i], PathAt(PathAt(path, 1), i))
    ensures |[first] + rest| == |items| && ConverterOutput([first] + rest)
    ensures forall i :: 0 <= i < |items| ==> ([first] + rest)[i][0].value.url == name(items[i], PathAt(path, i))
  {
    var r: seq<seq<Slot>> := [first] + rest;
    forall i | 0 <= i < |items|
      ensures r[i][0].value.url == name(items[i], PathAt(path, i))
    {
      if i == 0 {
        PathAtZero(path);
      } else {
        PathAtPathAt(path, 1, i - 1);
        assert r[i][0] == rest[i - 1][0] && items[1..][i - 1] == items[i];
      }
    }
  }

  /** `arrayToThings(items, createThingFromSlateJSOElement, path)`: fails on
      an empty array (the converter is handed `undefined`); otherwise the
      head cell is the cell at path, whose `first` is the record of the
      first element and whose `rest` is the next cell or rdf:nil. */
  function EncodeList(items: seq<Obj>, path: Path): (r: Result<seq<Slot>, EncodeError>)
    requires |path| > 0
    ensures r.Ok? <==> items != [] && ItemsEncode(items)
    ensures r.Ok? ==>
              r.value != [] &&
              r.value[0] == Some(ListCell(path, RecordUrl(items[0], path),
                                          if |items| > 1 then CellUrl(PathAt(path, 1)) else RDF_NIL))
    decreases items, 2
  {
    if items == [] then Err(UndefinedElement)
    else
      match ConvertAll(items, path)
      case Err(e) => Err(e)
      case Ok(converted) =>
        PathAtZero(path);
        Ok(ArrayToThings(converted, path))
  }

  // ---------------------------------------------------------------------
  // Decoding. A cyclic chain of cells would make the source recurse without
  // bound; here every step into a list spends one unit of fuel, and None
  // means no result within the fuel given.

  /** `thingsToArray(cell, ds, noteThingToSlateObject)`: walks the chain from
      cell, stopping at the first cell whose `first` does not resolve. */
  function ThingsToArray(ds: Dataset, cell: Thing, fuel: nat): (r: Option<seq<Obj>>)
    ensures r.Some? ==> |r.value| <= fuel && forall i :: 0 <= i < |r.value| ==> IsJsObject(r.value[i])
    decreases fuel, 0, 0
  {
    if fuel == 0 then None
    else
      match FirstThing(ds, cell)
      case None => Some([])
      case Some(first) =>
        match ObjectFromThing(ds, first, fuel - 1)
        case None => None
        case Some(o) =>
          match RestThing(ds, cell)
          case None => Some([o])
          case Some(next) =>
            match ThingsToArray(ds, next, fuel - 1)
            case None => None
            case Some(os) => Some([o] + os)
  }

  /** This is the generic `thingsToArray` with the note decoder as its
      converter. */
  lemma {:induction false} ThingsToArrayIsGeneric(ds: Dataset, cell: Thing, fuel: nat)
    ensures ThingsToArray(ds, cell, fuel) ==
              Collections.ThingsToArrayWith(ds, cell, fuel, (t, k) => ObjectFromThing(ds, t, k))
    decreases fuel
  {
    if fuel > 0 {
      var f: nat := fuel - 1;
      match RestThing(ds, cell)
      case None =>
      case Some(next) => ThingsToArrayIsGeneric(ds, next, f);
    }
  }

  /** `childrenArrayFromDataset`: the list whose head cell is at url, or the
      empty array when ds does not hold it. */
  function ChildrenArrayFromDataset(ds: Dataset, url: string, fuel: nat): (r: Option<seq<Obj>>)
    ensures url !in ds ==> r == Some([])
    ensures r.Some? ==> forall i :: 0 <= i < |r.value| ==> IsJsObject(r.value[i])
    decreases fuel, 1, 0
  {
    match GetThing(ds, url)
    case None => Some([])
    case Some(cell) => ThingsToArray(ds, cell, fuel)
  }

  /** One pass of the loop of noteThingToSlateObject: the predicate's text
      after the note namespace is the key; "children" is read as a list,
      anything else as the first string, else boolean, else non-zero
      integer literal. */
  function DecodeEntry(ds: Dataset, thing: Thing, obj: Obj, e: Entry, fuel: nat): (r: Option<Obj>)
    ensures r.Some? && IsJsObject(obj) ==> IsJsObject(r.value)
    ensures r.None? ==> Js.SplitSecond(e.property, NOTE_NS) == Some("children")
    decreases fuel, 2, 0
  {
    match Js.SplitSecond(e.property, NOTE_NS)
    case None => Some(obj)
    case Some(key) =>
      if key == "" then Some(obj)
      else if key == "children" then
        match GetUrl(thing, CHILDREN)
        case None => Some(obj)
        case Some(u) =>
          if u == "" then Some(obj)
          else
            match ChildrenArrayFromDataset(ds, u, fuel)
            case None => None
            case Some(cs) => Some(Assign(obj, "children", Arr(cs)))
      else
        var ls := e.objects.literals;
        if ls == [] then Some(obj)
        else if Strings(ls) != [] then Some(Assign(obj, key, Str(Strings(ls)[0])))
        else if Booleans(ls) != [] then Some(Assign(obj, key, Bool(Booleans(ls)[0])))
        else if Integers(ls) != [] then
          var n := Integers(ls)[0];
          if n != 0 then Some(Assign(obj, key, Num(Js.JsNumber(n, 0)))) else Some(obj)
        else Some(obj)
  }

  /** A predicate outside the note namespace has no key: the loop goes on
      with the object as it was. */
  lemma DecodeForeign(ds: Dataset, thing: Thing, obj: Obj, e: Entry, fuel: nat)
    requires Js.SplitSecond(e.property, NOTE_NS).None?
    ensures DecodeEntry(ds, thing, obj, e, fuel) == Some(obj)
  {
  }

  /** A key other than "children" read from a predicate's literals. */
  predicate ScalarKey(e: Entry, key: string) {
    Js.SplitSecond(e.property, NOTE_NS) == Some(key) && key != "" && key != "children"
  }

  /** Strings come first: the key gets the first string literal, whatever
      booleans or integers come before it. */
  lemma DecodeFirstString(ds: Dataset, thing: Thing, obj: Obj, e: Entry, fuel: nat, key: string, i: nat)
    requires ScalarKey(e, key)
    requires i < |e.objects.literals| && e.objects.literals[i].XString?
    requires forall j :: 0 <= j < i ==> !e.objects.literals[j].XString?
    ensures DecodeEntry(ds, thing, obj, e, fuel) == Some(Assign(obj, key, Str(e.objects.literals[i].s)))
  {
    StringsFirst(e.objects.literals, i);
  }

  /** Booleans next: the first boolean literal, when there is no string. */
  lemma DecodeFirstBoolean(ds: Dataset, thing: Thing, obj: Obj, e: Entry, fuel: nat, key: string, i: nat)
    requires ScalarKey(e, key)
    requires forall l :: l in e.objects.literals ==> !l.XString?
    requires i < |e.objects.literals| && e.objects.literals[i].XBoolean?
    requires forall j :: 0 <= j < i ==> !e.objects.literals[j].XBoolean?
    ensures DecodeEntry(ds, thing, obj, e, fuel) == Some(Assign(obj, key, Bool(e.objects.literals[i].b)))
  {
    BooleansFirst(e.objects.literals, i);
  }

  /** Integers last: the first integer literal, when there is neither a
      string nor a boolean, and only when it is not zero. */
  lemma DecodeFirstInteger(ds: Dataset, thing: Thing, obj: Obj, e: Entry, fuel: nat, key: string, i: nat)
    requires ScalarKey(e, key)
    requires forall l :: l in e.objects.literals ==> !l.XString? && !l.XBoolean?
    requires i < |e.objects.literals| && e.objects.literals[i].XInteger?
    requires forall j :: 0 <= j < i ==> !e.objects.literals[j].XInteger?
    ensures var n := e.objects.literals[i].i;
            DecodeEntry(ds, thing, obj, e, fuel)
            == if n != 0 then Some(Assign(obj, key, Num(Js.JsNumber(n, 0)))) else Some(obj)
  {
    BooleansNone(e.objects.literals);
    IntegersFirst(e.objects.literals, i);
  }

  /** With no string, boolean or integer literal the key is not set. */
  lemma DecodeNoScalar(ds: Dataset, thing: Thing, obj: Obj, e: Entry, fuel: nat, key: string)
    requires ScalarKey(e, key)
    requires forall l :: l in e.objects.literals ==> !l.XString? && !l.XBoolean? && !l.XInteger?
    ensures DecodeEntry(ds, thing, obj, e, fuel) == Some(obj)
  {
    BooleansNone(e.objects.literals);
    IntegersNone(e.objects.literals);
  }

  /** The object after the loop has seen the given predicates, in order. */
  function DecodeEntries(ds: Dataset, thing: Thing, entries: seq<Entry>, fuel: nat): (r: Option<Obj>)
    ensures r.Some? ==> IsJsObject(r.value)
    decreases fuel, 3, |entries|
  {
    if entries == [] then Some(Obj([]))
    else
      match DecodeEntries(ds, thing, entries[..|entries| - 1], fuel)
      case None => None
      case Some(obj) => DecodeEntry(ds, thing, obj, entries[|entries| - 1], fuel)
  }

  /** What noteThingToSlateObject returns for thing. */
  function ObjectFromThing(ds: Dataset, thing: Thing, fuel: nat): (r: Option<Obj>)
    ensures r.Some? ==> IsJsObject(r.value)
    decreases fuel, 4, 0
  {
    DecodeEntries(ds, thing, thing.predicates, fuel)
  }

  /** Once a prefix of the predicates fails, so does every longer one. */
  lemma {:induction false} DecodeEntriesNone(ds: Dataset, thing: Thing, entries: seq<Entry>, k: nat, fuel: nat)
    requires k <= |entries| && DecodeEntries(ds, thing, entries[..k], fuel).None?
    ensures DecodeEntries(ds, thing, entries, fuel).None?
    decreases |entries| - k
  {
    if k < |entries| {
      assert entries[..k + 1][..k] == entries[..k];
      DecodeEntriesNone(ds, thing, entries, k + 1, fuel);
    } else {
      assert entries[..k] == entries;
    }
  }

  lemma DecodeEntriesStep(ds: Dataset, thing: Thing, entries: seq<Entry>, i: nat, fuel: nat, obj: Obj)
    requires i < |entries| && DecodeEntries(ds, thing, entries[..i], fuel) == Some(obj)
    ensures DecodeEntries(ds, thing, entries[..i + 1], fuel) == DecodeEntry(ds, thing, obj, entries[i], fuel)
  {
    assert entries[..i + 1][..i] == entries[..i];
  }

  /** `noteThingToSlateObject`: builds the object predicate by predicate,
      and gives up (None) as soon as a children list cannot be read. */
  method NoteThingToSlateObject(thing: Thing, ds: Dataset, fuel: nat) returns (r: Option<Obj>)
    ensures r == ObjectFromThing(ds, thing, fuel)
  {
    var obj := Obj([]);
    var i := 0;
    while i < |thing.predicates|
      invariant 0 <= i <= |thing.predicates|
      invariant DecodeEntries(ds, thing, thing.predicates[..i], fuel) == Some(obj)
    {
      DecodeEntriesStep(ds, thing, thing.predicates, i, fuel, obj);
      var next := DecodeEntry(ds, thing, obj, thing.predicates[i], fuel);
      if next.None? {
        DecodeEntriesNone(ds, thing, thing.predicates, i + 1, fuel);
        return None;
      }
      obj := next.value;
      i := i + 1;
    }
    assert thing.predicates[..i] == thing.predicates;
    r := Some(obj);
  }
}

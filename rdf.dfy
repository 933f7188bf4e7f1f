/** A model of the part of the Solid client library the garden code calls:
    a thing is a URL with an ordered table of predicates (insertion order, as
    the keys of a JavaScript object), each holding URLs and typed literals;
    a dataset maps URLs to things. Every operation returns a new value. */
module Rdf {
  import opened Wrappers
  import Js
  import opened Vocab

  /** A typed literal; the lexical form on the wire is not modelled. */
  datatype Literal =
    | XString(s: string)
    | XBoolean(b: bool)
    | XInteger(i: int)
    | XDecimal(d: Js.JsNumber)
    | XDateTime(t: int)

  datatype Objects = Objects(urls: seq<string>, literals: seq<Literal>)

  datatype Entry = Entry(property: string, objects: Objects)

  datatype Thing = Thing(url: string, predicates: seq<Entry>)

  /** A thing, or `undefined` in an array of things. */
  type Slot = Option<Thing>

  type Dataset = map<string, Thing>

  const NO_OBJECTS := Objects([], [])

  /** Where the entry for predicate p sits, if the thing has one. */
  function Position(entries: seq<Entry>, p: string): (r: Option<nat>)
    ensures r.Some? ==> r.value < |entries| && entries[r.value].property == p
    ensures r.Some? ==> forall j :: 0 <= j < r.value ==> entries[j].property != p
    ensures r.None? ==> forall j :: 0 <= j < |entries| ==> entries[j].property != p
  {
    if entries == [] then None
    else if entries[0].property == p then Some(0)
    else match Position(entries[1..], p)
      case None => None
      case Some(i) => Some(i + 1)
  }

  /** The objects of the first entry for p in entries, nothing when there is none. */
  function ObjectsIn(entries: seq<Entry>, p: string): Objects {
    match Position(entries, p)
    case None => NO_OBJECTS
    case Some(i) => entries[i].objects
  }

  /** `thing.predicates[p]`, with a missing predicate read as holding nothing. */
  function ObjectsOf(t: Thing, p: string): Objects {
    ObjectsIn(t.predicates, p)
  }

  /** No predicate appears twice, as in a JavaScript object. */
  predicate Wf(t: Thing) {
    forall i, j :: 0 <= i < j < |t.predicates| ==> t.predicates[i].property != t.predicates[j].property
  }

  /** Position's three ensures pin its result down. */
  lemma PositionExact(entries: seq<Entry>, p: string, k: nat)
    requires k < |entries| && entries[k].property == p
    requires forall j :: 0 <= j < k ==> entries[j].property != p
    ensures Position(entries, p) == Some(k)
  {
  }

  lemma PositionUpdated(entries: seq<Entry>, i: nat, p: string, o: Objects, q: string)
    requires Position(entries, p) == Some(i)
    ensures ObjectsIn(entries[i := Entry(p, o)], q) == if q == p then o else ObjectsIn(entries, q)
  {
    var e := entries[i := Entry(p, o)];
    if q == p {
      PositionExact(e, p, i);
    } else {
      match Position(entries, q)
      case None =>
        assert forall j :: 0 <= j < |e| ==> e[j].property != q;
      case Some(k) =>
        PositionExact(e, q, k);
    }
  }

  lemma PositionAppended(entries: seq<Entry>, p: string, o: Objects, q: string)
    requires Position(entries, p).None?
    ensures ObjectsIn(entries + [Entry(p, o)], q) == if q == p then o else ObjectsIn(entries, q)
  {
    var e := entries + [Entry(p, o)];
    if q == p {
      PositionExact(e, p, |entries|);
    } else {
      match Position(entries, q)
      case None =>
        assert forall j :: 0 <= j < |e| ==> e[j].property != q;
      case Some(k) =>
        PositionExact(e, q, k);
    }
  }

  /** Gives p the objects o: in place when p is present, appended otherwise. */
  function Put(t: Thing, p: string, o: Objects): (r: Thing)
    ensures r.url == t.url
    ensures forall q :: ObjectsOf(r, q) == if q == p then o else ObjectsOf(t, q)
    ensures Wf(t) ==> Wf(r)
  {
    match Position(t.predicates, p)
    case None =>
      var r := Thing(t.url, t.predicates + [Entry(p, o)]);
      assert forall q :: ObjectsOf(r, q) == if q == p then o else ObjectsOf(t, q) by {
        forall q ensures ObjectsOf(r, q) == if q == p then o else ObjectsOf(t, q) {
          PositionAppended(t.predicates, p, o, q);
        }
      }
      r
    case Some(i) =>
      var r := Thing(t.url, t.predicates[i := Entry(p, o)]);
      assert forall q :: ObjectsOf(r, q) == if q == p then o else ObjectsOf(t, q) by {
        forall q ensures ObjectsOf(r, q) == if q == p then o else ObjectsOf(t, q) {
          PositionUpdated(t.predicates, i, p, o, q);
        }
      }
      assert Wf(t) ==> Wf(r) by {
        if Wf(t) {
          forall j, k | 0 <= j < k < |r.predicates| ensures r.predicates[j].property != r.predicates[k].property {
            assert j != i ==> r.predicates[j] == t.predicates[j];
            assert k != i ==> r.predicates[k] == t.predicates[k];
          }
        }
      }
      r
  }

  lemma ObjectsInCons(e: Entry, rest: seq<Entry>, q: string)
    ensures ObjectsIn([e] + rest, q) == if e.property == q then e.objects else ObjectsIn(rest, q)
  {
    assert ([e] + rest)[1..] == rest;
  }

  /** The entries of every predicate except p, in their order. */
  function Without(entries: seq<Entry>, p: string): (r: seq<Entry>)
    ensures forall q :: ObjectsIn(r, q) == if q == p then NO_OBJECTS else ObjectsIn(entries, q)
  {
    if entries == [] then []
    else if entries[0].property == p then
      assert forall q :: q != p ==> ObjectsIn(entries, q) == ObjectsIn(entries[1..], q) by {
        forall q | q != p ensures ObjectsIn(entries, q) == ObjectsIn(entries[1..], q) {
          ObjectsInCons(entries[0], entries[1..], q);
          assert entries == [entries[0]] + entries[1..];
        }
      }
      Without(entries[1..], p)
    else
      var r := [entries[0]] + Without(entries[1..], p);
      assert forall q :: ObjectsIn(r, q) == if q == p then NO_OBJECTS else ObjectsIn(entries, q) by {
        forall q ensures ObjectsIn(r, q) == if q == p then NO_OBJECTS else ObjectsIn(entries, q) {
          ObjectsInCons(entries[0], Without(entries[1..], p), q);
          ObjectsInCons(entries[0], entries[1..], q);
          assert entries == [entries[0]] + entries[1..];
        }
      }
      r
  }

  /** `removeAll(thing, p)` */
  function RemoveAll(t: Thing, p: string): (r: Thing)
    ensures r.url == t.url
    ensures forall q :: ObjectsOf(r, q) == if q == p then NO_OBJECTS else ObjectsOf(t, q)
  {
    Thing(t.url, Without(t.predicates, p))
  }

  /** `addUrl(thing, p, u)` */
  function AddUrl(t: Thing, p: string, u: string): (r: Thing)
    ensures r.url == t.url
    ensures forall q :: ObjectsOf(r, q) ==
                          if q == p then Objects(ObjectsOf(t, p).urls + [u], ObjectsOf(t, p).literals)
                          else ObjectsOf(t, q)
  {
    var o := ObjectsOf(t, p);
    Put(t, p, Objects(o.urls + [u], o.literals))
  }

  /** `addStringNoLocale`, `addBoolean`, `addInteger`, `addDecimal`, `addDatetime` */
  function AddLiteral(t: Thing, p: string, l: Literal): (r: Thing)
    ensures r.url == t.url
    ensures forall q :: ObjectsOf(r, q) ==
                          if q == p then Objects(ObjectsOf(t, p).urls, ObjectsOf(t, p).literals + [l])
                          else ObjectsOf(t, q)
  {
    var o := ObjectsOf(t, p);
    Put(t, p, Objects(o.urls, o.literals + [l]))
  }

  /** `setStringNoLocale`, `setBoolean`, `setInteger`, `setDecimal`: every
      earlier value of p is replaced by the one literal. */
  function SetLiteral(t: Thing, p: string, l: Literal): (r: Thing)
    ensures r.url == t.url
    ensures forall q :: ObjectsOf(r, q) == if q == p then Objects([], [l]) else ObjectsOf(t, q)
  {
    AddLiteral(RemoveAll(t, p), p, l)
  }

  /** `setUrl(thing, p, u)`: every earlier value of p is replaced by u. */
  function SetUrl(t: Thing, p: string, u: string): (r: Thing)
    ensures r.url == t.url
    ensures forall q :: ObjectsOf(r, q) == if q == p then Objects([u], []) else ObjectsOf(t, q)
  {
    AddUrl(RemoveAll(t, p), p, u)
  }

  /** `getUrl(thing, p)`: the first URL of p. */
  function GetUrl(t: Thing, p: string): Option<string> {
    var us := ObjectsOf(t, p).urls;
    if us == [] then None else Some(us[0])
  }

  /** `getUrlAll(thing, p)` */
  function GetUrlAll(t: Thing, p: string): seq<string> {
    ObjectsOf(t, p).urls
  }

  /** The string literals among ls, in order. */
  function Strings(ls: seq<Literal>): (r: seq<string>)
    ensures |r| <= |ls|
    ensures forall i :: 0 <= i < |r| ==> XString(r[i]) in ls
    ensures forall l :: l in ls && l.XString? ==> l.s in r
  {
    if ls == [] then []
    else (if ls[0].XString? then [ls[0].s] else []) + Strings(ls[1..])
  }

  /** The boolean literals among ls, in order. */
  function Booleans(ls: seq<Literal>): seq<bool> {
    if ls == [] then []
    else (if ls[0].XBoolean? then [ls[0].b] else []) + Booleans(ls[1..])
  }

  /** The integer literals among ls, in order. */
  function Integers(ls: seq<Literal>): seq<int> {
    if ls == [] then []
    else (if ls[0].XInteger? then [ls[0].i] else []) + Integers(ls[1..])
  }

  /** Reading the strings of two runs of literals reads each run in turn:
      with the one-literal case, the strings are ls filtered in order. */
  lemma {:induction false} StringsAppend(a: seq<Literal>, b: seq<Literal>)
    ensures Strings(a + b) == Strings(a) + Strings(b)
  {
    if a != [] {
      assert (a + b)[0] == a[0] && (a + b)[1..] == a[1..] + b;
      StringsAppend(a[1..], b);
    } else {
      assert a + b == b;
    }
  }

  lemma StringsOne(l: Literal)
    ensures Strings([l]) == if l.XString? then [l.s] else []
  {
    assert [l][1..] == [];
  }

  /** The first string read is the value of the first string literal,
      whatever literals of other types come before it. */
  lemma {:induction false} StringsFirst(ls: seq<Literal>, i: nat)
    requires i < |ls| && ls[i].XString?
    requires forall j :: 0 <= j < i ==> !ls[j].XString?
    ensures Strings(ls) != [] && Strings(ls)[0] == ls[i].s
  {
    if i > 0 {
      var k: nat := i - 1;
      assert !ls[0].XString?;
      StringsFirst(ls[1..], k);
    }
  }

  /** Without a boolean literal no boolean is read. */
  lemma {:induction false} BooleansNone(ls: seq<Literal>)
    requires forall l :: l in ls ==> !l.XBoolean?
    ensures Booleans(ls) == []
  {
    if ls != [] {
      assert ls[0] in ls;
      BooleansNone(ls[1..]);
    }
  }

  /** Without an integer literal no integer is read. */
  lemma {:induction false} IntegersNone(ls: seq<Literal>)
    requires forall l :: l in ls ==> !l.XInteger?
    ensures Integers(ls) == []
  {
    if ls != [] {
      assert ls[0] in ls;
      IntegersNone(ls[1..]);
    }
  }

  lemma {:induction false} BooleansFirst(ls: seq<Literal>, i: nat)
    requires i < |ls| && ls[i].XBoolean?
    requires forall j :: 0 <= j < i ==> !ls[j].XBoolean?
    ensures Booleans(ls) != [] && Booleans(ls)[0] == ls[i].b
  {
    if i > 0 {
      var k: nat := i - 1;
      assert !ls[0].XBoolean?;
      BooleansFirst(ls[1..], k);
    }
  }

  lemma {:induction false} IntegersFirst(ls: seq<Literal>, i: nat)
    requires i < |ls| && ls[i].XInteger?
    requires forall j :: 0 <= j < i ==> !ls[j].XInteger?
    ensures Integers(ls) != [] && Integers(ls)[0] == ls[i].i
  {
    if i > 0 {
      var k: nat := i - 1;
      assert !ls[0].XInteger?;
      IntegersFirst(ls[1..], k);
    }
  }

  /** `getStringNoLocaleAll(thing, p)` */
  function GetStringNoLocaleAll(t: Thing, p: string): seq<string> {
    Strings(ObjectsOf(t, p).literals)
  }

  /** `createThing({ name })`: a thing known only by a local name. */
  function CreateThing(name: string): (r: Thing)
    ensures r.url == LOCAL_NODE + name && r.predicates == []
  {
    Thing(LOCAL_NODE + name, [])
  }

  /** `createThing({ url })` */
  function CreateThingAt(url: string): (r: Thing)
    ensures r.url == url && r.predicates == []
  {
    Thing(url, [])
  }

  /** `isThingLocal(thing)` */
  predicate IsThingLocal(t: Thing) {
    Js.StartsWith(t.url, LOCAL_NODE)
  }

  /** `setThing(dataset, thing)`: a later thing with the same URL replaces an earlier one. */
  function SetThing(ds: Dataset, t: Thing): (r: Dataset)
    ensures t.url in r && r[t.url] == t
    ensures forall u :: u != t.url ==> (u in r <==> u in ds) && (u in ds ==> r[u] == ds[u])
  {
    ds[t.url := t]
  }

  /** `getThing(dataset, url)` */
  function GetThing(ds: Dataset, u: string): (r: Option<Thing>)
    ensures r.Some? <==> u in ds
    ensures r.Some? ==> r.value == ds[u]
  {
    if u in ds then Some(ds[u]) else None
  }
}

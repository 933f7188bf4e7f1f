/** The small RDF helpers of the garden code: URL arguments, `rdf:type`
    membership and addition, `owl:sameAs` UUID URNs, and the local node
    that names things known only by a local name. */
module Utils {
  import opened Wrappers
  import opened Rdf
  import opened Vocab
  import Js

  /** `MaybeUrl`: a URL given as a string or as an RDF/JS named node. */
  datatype MaybeUrl = UrlText(s: string) | NamedNode(value: string)

  /** `asUrlString(url)`: a string as it is, a named node as its value. */
  function AsUrlString(url: MaybeUrl): (r: string)
    ensures url.UrlText? ==> r == url.s
    ensures url.NamedNode? ==> r == url.value
  {
    match url
    case UrlText(s) => s
    case NamedNode(v) => v
  }

  function UrlStrings(ts: seq<MaybeUrl>): (r: seq<string>)
    ensures |r| == |ts| && forall i :: 0 <= i < |ts| ==> r[i] == AsUrlString(ts[i])
  {
    if ts == [] then [] else [AsUrlString(ts[0])] + UrlStrings(ts[1..])
  }

  // ---------------------------------------------------------------------
  // rdf:type

  /** The thing lists t among its `rdf:type` values. */
  predicate HasType(thing: Thing, t: string) {
    t in GetUrlAll(thing, RDF_TYPE)
  }

  /** Every element of ts is among the thing's `rdf:type` values. */
  predicate HasAllTypes(thing: Thing, ts: seq<MaybeUrl>) {
    forall i :: 0 <= i < |ts| ==> HasType(thing, AsUrlString(ts[i]))
  }

  /** `hasRDFTypes(thing, ts)`: the flag stays true while each type is found. */
  method HasRDFTypes(thing: Thing, ts: seq<MaybeUrl>) returns (hasAllTypes: bool)
    ensures hasAllTypes <==> HasAllTypes(thing, ts)
  {
    var types := GetUrlAll(thing, RDF_TYPE);
    hasAllTypes := true;
    for i := 0 to |ts|
      invariant hasAllTypes <==> forall j :: 0 <= j < i ==> AsUrlString(ts[j]) in types
    {
      hasAllTypes := hasAllTypes && AsUrlString(ts[i]) in types;
    }
  }

  /** `hasRDFType(thing, t)`, which asks hasRDFTypes about [t]. */
  method HasRDFType(thing: Thing, t: MaybeUrl) returns (r: bool)
    ensures r <==> HasType(thing, AsUrlString(t))
  {
    r := HasRDFTypes(thing, [t]);
    assert [t][0] == t;
  }

  /** `addRDFType(thing, t)`: one more `rdf:type` value, at the end. */
  function AddRDFType(thing: Thing, t: MaybeUrl): (r: Thing)
    ensures r.url == thing.url
    ensures ObjectsOf(r, RDF_TYPE) ==
              Objects(GetUrlAll(thing, RDF_TYPE) + [AsUrlString(t)], ObjectsOf(thing, RDF_TYPE).literals)
    ensures forall q :: q != RDF_TYPE ==> ObjectsOf(r, q) == ObjectsOf(thing, q)
  {
    AddUrl(thing, RDF_TYPE, AsUrlString(t))
  }

  /** Adding a type makes the thing have it, and keeps every type it had. */
  lemma AddRDFTypeHas(thing: Thing, t: MaybeUrl, u: string)
    ensures HasType(AddRDFType(thing, t), AsUrlString(t))
    ensures HasType(AddRDFType(thing, t), u) <==> HasType(thing, u) || u == AsUrlString(t)
  {
    var types := GetUrlAll(thing, RDF_TYPE);
    assert GetUrlAll(AddRDFType(thing, t), RDF_TYPE) == types + [AsUrlString(t)];
    assert (types + [AsUrlString(t)])[|types|] == AsUrlString(t);
  }

  /** `addRDFTypes(thing, ts)`: each type appended in order, nothing else touched. */
  method AddRDFTypes(thing: Thing, ts: seq<MaybeUrl>) returns (r: Thing)
    ensures r.url == thing.url
    ensures ObjectsOf(r, RDF_TYPE) ==
              Objects(GetUrlAll(thing, RDF_TYPE) + UrlStrings(ts), ObjectsOf(thing, RDF_TYPE).literals)
    ensures forall q :: q != RDF_TYPE ==> ObjectsOf(r, q) == ObjectsOf(thing, q)
    ensures HasAllTypes(r, ts)
  {
    r := thing;
    for i := 0 to |ts|
      invariant r.url == thing.url
      invariant ObjectsOf(r, RDF_TYPE) ==
                  Objects(GetUrlAll(thing, RDF_TYPE) + UrlStrings(ts[..i]), ObjectsOf(thing, RDF_TYPE).literals)
      invariant forall q :: q != RDF_TYPE ==> ObjectsOf(r, q) == ObjectsOf(thing, q)
    {
      UrlStringsSnoc(GetUrlAll(thing, RDF_TYPE), ts, i);
      r := AddRDFType(r, ts[i]);
    }
    assert ts[..|ts|] == ts;
    AppendedTypes(r, GetUrlAll(thing, RDF_TYPE), ts);
  }

  lemma UrlStringsSnoc(types: seq<string>, ts: seq<MaybeUrl>, i: nat)
    requires i < |ts|
    ensures types + UrlStrings(ts[..i + 1]) == types + UrlStrings(ts[..i]) + [AsUrlString(ts[i])]
  {
    assert UrlStrings(ts[..i + 1]) == UrlStrings(ts[..i]) + [AsUrlString(ts[i])];
  }

  /** Types appended after the ones a thing had are types it has. */
  lemma AppendedTypes(thing: Thing, types: seq<string>, ts: seq<MaybeUrl>)
    requires GetUrlAll(thing, RDF_TYPE) == types + UrlStrings(ts)
    ensures HasAllTypes(thing, ts)
  {
    forall i | 0 <= i < |ts|
      ensures HasType(thing, AsUrlString(ts[i]))
    {
      assert GetUrlAll(thing, RDF_TYPE)[|types| + i] == AsUrlString(ts[i]);
    }
  }

  // ---------------------------------------------------------------------
  // UUID URNs under owl:sameAs

  const URN_UUID := "urn:uuid:"

  /** `newUuidUrn()`, with the freshly generated UUID passed in. */
  function NewUuidUrn(uuid: string): (r: string)
    ensures Js.StartsWith(r, URN_UUID) && r[|URN_UUID|..] == uuid
  {
    URN_UUID + uuid
  }

  /** `createThingWithUUID()`: an empty thing whose URL is a UUID URN. */
  function CreateThingWithUUID(uuid: string): (r: Thing)
    ensures r.url == NewUuidUrn(uuid) && r.predicates == []
    ensures !IsThingLocal(r)
  {
    var u := URN_UUID + uuid;
    assert u[0] == URN_UUID[0] == 'u';
    assert LOCAL_NODE[0] == 'h';
    assert |u| < |LOCAL_NODE| || u[..|LOCAL_NODE|][0] == 'u';
    CreateThingAt(u)
  }

  /** `isUUID(url)` on a URL of the form `urn:uuid:<rest>`: the rest must pass
      `uuid.validate`, which is a parameter here. */
  function IsUUID(url: string, validate: string -> bool): (b: bool)
    ensures b <==> exists uuid :: url == NewUuidUrn(uuid) && validate(uuid)
  {
    Js.StartsWith(url, URN_UUID) && validate(url[|URN_UUID|..])
  }

  /** `urls.find(isUUID)`: the first URL that is a UUID URN. */
  function FindUUID(urls: seq<string>, validate: string -> bool): (r: Option<string>)
    ensures r.Some? ==> IsUUID(r.value, validate) && r.value in urls
    ensures r.None? ==> forall j :: 0 <= j < |urls| ==> !IsUUID(urls[j], validate)
  {
    if urls == [] then None
    else if IsUUID(urls[0], validate) then Some(urls[0])
    else FindUUID(urls[1..], validate)
  }

  /** What find returns comes before every other UUID URN in the list. */
  lemma {:induction false} FindUUIDFirst(urls: seq<string>, validate: string -> bool)
    requires FindUUID(urls, validate).Some?
    ensures exists i :: 0 <= i < |urls| && urls[i] == FindUUID(urls, validate).value &&
                        forall j :: 0 <= j < i ==> !IsUUID(urls[j], validate)
  {
    if !IsUUID(urls[0], validate) {
      var rest := urls[1..];
      FindUUIDFirst(rest, validate);
      var i :| 0 <= i < |rest| && rest[i] == FindUUID(rest, validate).value &&
               forall j :: 0 <= j < i ==> !IsUUID(rest[j], validate);
      assert urls[i + 1] == rest[i];
      forall j | 0 <= j < i + 1
        ensures !IsUUID(urls[j], validate)
      {
        if j > 0 {
          assert urls[j] == rest[j - 1];
        }
      }
    } else {
      assert urls[0] == FindUUID(urls, validate).value;
    }
  }

  /** `getUUID(thing)`: the thing's own URL when it is not local and is a
      UUID URN, else the first `owl:sameAs` URL that is one, else null. */
  function GetUUID(thing: Thing, validate: string -> bool): (r: Option<string>)
    ensures r.Some? ==> IsUUID(r.value, validate)
    ensures r.Some? ==> r.value == thing.url || r.value in GetUrlAll(thing, OWL_SAME_AS)
    ensures r.None? <==> (IsThingLocal(thing) || !IsUUID(thing.url, validate)) &&
                         forall u :: u in GetUrlAll(thing, OWL_SAME_AS) ==> !IsUUID(u, validate)
  {
    if !IsThingLocal(thing) && IsUUID(thing.url, validate) then Some(thing.url)
    else FindUUID(GetUrlAll(thing, OWL_SAME_AS), validate)
  }

  /** `addUUID(thing)`: one more `owl:sameAs` value, a fresh UUID URN. */
  function AddUUID(thing: Thing, uuid: string): (r: Thing)
    ensures r.url == thing.url
    ensures GetUrlAll(r, OWL_SAME_AS) == GetUrlAll(thing, OWL_SAME_AS) + [NewUuidUrn(uuid)]
    ensures forall q :: q != OWL_SAME_AS ==> ObjectsOf(r, q) == ObjectsOf(thing, q)
  {
    AddUrl(thing, OWL_SAME_AS, NewUuidUrn(uuid))
  }

  /** `ensureUUID(thing)`: the thing itself when it has a UUID, else the
      thing with a fresh one added. */
  function EnsureUUID(thing: Thing, uuid: string, validate: string -> bool): (r: Thing)
    ensures GetUUID(thing, validate).Some? ==> r == thing
    ensures GetUUID(thing, validate).None? ==> r == AddUUID(thing, uuid)
  {
    if GetUUID(thing, validate).Some? then thing else AddUUID(thing, uuid)
  }

  /** Once the validator accepts the generated UUID, an ensured thing has a
      UUID, and ensuring again changes nothing. */
  lemma EnsureUUIDIdempotent(thing: Thing, uuid: string, uuid2: string, validate: string -> bool)
    requires validate(uuid)
    ensures GetUUID(EnsureUUID(thing, uuid, validate), validate).Some?
    ensures EnsureUUID(EnsureUUID(thing, uuid, validate), uuid2, validate) == EnsureUUID(thing, uuid, validate)
  {
    if GetUUID(thing, validate).None? {
      var r := AddUUID(thing, uuid);
      var urn := NewUuidUrn(uuid);
      assert urn[|URN_UUID|..] == uuid;
      assert IsUUID(urn, validate);
      assert urn in GetUrlAll(r, OWL_SAME_AS);
    }
  }

  // ---------------------------------------------------------------------
  // The local node

  /** The fallback of `slugToUrl` when there is no source URL: the slug
      under the local node. */
  function SlugToLocalUrl(slug: string): (r: string)
    ensures Js.StartsWith(r, LOCAL_NODE) && r[|LOCAL_NODE|..] == slug
  {
    LOCAL_NODE + slug
  }

  /** The fallback names the thing `createThing({ name: slug })` creates. */
  lemma SlugToLocalUrlNamesThing(slug: string)
    ensures SlugToLocalUrl(slug) == CreateThing(slug).url
    ensures IsThingLocal(CreateThing(slug))
  {
  }

  /** A reference `#x` read back as the local-node URL of x; any other
      string as it is. */
  function ExpandLocalHash(s: string): (r: string)
    ensures |s| > 0 && s[0] == '#' ==> r == SlugToLocalUrl(s[1..])
    ensures !(|s| > 0 && s[0] == '#') ==> r == s
    ensures |r| == 0 || r[0] != '#'
  {
    if |s| > 0 && s[0] == '#' then
      var r := LOCAL_NODE + s[1..];
      assert r[0] == LOCAL_NODE[0] == 'h';
      r
    else s
  }

  /** Expanding twice is expanding once. */
  lemma ExpandLocalHashIdempotent(s: string)
    ensures ExpandLocalHash(ExpandLocalHash(s)) == ExpandLocalHash(s)
  {
  }

  /** `getUrlExpandLocalHash(thing, p)`: the first URL of p, with a local
      hash reference expanded; null when p holds no URL. */
  function GetUrlExpandLocalHash(thing: Thing, p: string): (r: Option<string>)
    ensures r.None? <==> GetUrl(thing, p).None?
    ensures r.Some? ==> r.value == ExpandLocalHash(GetUrl(thing, p).value)
  {
    match GetUrl(thing, p)
    case None => None
    case Some(u) => Some(ExpandLocalHash(u))
  }

  /** A thing that refers to another by `#name` is led to the URL the local
      thing of that name has. */
  lemma ExpandLocalHashFindsLocalThing(thing: Thing, p: string, name: string)
    requires GetUrl(thing, p) == Some("#" + name)
    ensures GetUrlExpandLocalHash(thing, p) == Some(CreateThing(name).url)
  {
    assert ("#" + name)[1..] == name;
  }

  // ---------------------------------------------------------------------
  // Title, description, depiction

  /** `setTitle(thing, title)` */
  function SetTitle(thing: Thing, title: string): (r: Thing)
    ensures r.url == thing.url
    ensures forall q :: ObjectsOf(r, q) == if q == DCTERMS_TITLE then Objects([], [XString(title)]) else ObjectsOf(thing, q)
  {
    SetLiteral(thing, DCTERMS_TITLE, XString(title))
  }

  /** `setDescription(thing, description)` */
  function SetDescription(thing: Thing, description: string): (r: Thing)
    ensures r.url == thing.url
    ensures forall q :: ObjectsOf(r, q) == if q == DCTERMS_DESCRIPTION then Objects([], [XString(description)]) else ObjectsOf(thing, q)
  {
    SetLiteral(thing, DCTERMS_DESCRIPTION, XString(description))
  }

  /** `setDepiction(thing, depiction)` */
  function SetDepiction(thing: Thing, depiction: string): (r: Thing)
    ensures r.url == thing.url
    ensures forall q :: ObjectsOf(r, q) == if q == FOAF_DEPICTION then Objects([depiction], []) else ObjectsOf(thing, q)
  {
    SetUrl(thing, FOAF_DEPICTION, depiction)
  }
}

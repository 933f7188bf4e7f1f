/** Garden items: things typed `MY.Garden.Item`, classified by further
    `rdf:type` values, tagged with plain strings, and created with a UUID
    URN, timestamps, a creator and optional descriptive fields. */
module Items {
  import opened Wrappers
  import opened Rdf
  import opened Vocab
  import opened Utils

  /** `GardenItemType` */
  datatype ItemType = NoteType | FileType | ImageType | BookmarkType | PersonType | CollectionType

  /** The `rdf:type` that marks each kind of item. */
  function TypeIri(k: ItemType): string {
    match k
    case NoteType => GARDEN_NOTE
    case FileType => GARDEN_FILE
    case ImageType => GARDEN_IMAGE
    case BookmarkType => GARDEN_BOOKMARK
    case PersonType => GARDEN_PERSON
    case CollectionType => GARDEN_COLLECTION
  }

  /** The order in which getItemType tests the kinds. */
  function Rank(k: ItemType): nat {
    match k
    case NoteType => 0
    case FileType => 1
    case ImageType => 2
    case BookmarkType => 3
    case PersonType => 4
    case CollectionType => 5
  }

  /** `isItem(thing)`: what `hasAllRDFTypes` says of the one type garden:Item. */
  function IsItem(thing: Thing): (b: bool)
    ensures b <==> HasAllTypes(thing, [UrlText(GARDEN_ITEM)])
  {
    assert AsUrlString([UrlText(GARDEN_ITEM)][0]) == GARDEN_ITEM;
    HasType(thing, GARDEN_ITEM)
  }

  /** `isNote`, `isFile`, `isImage`, `isBookmark`, `isPerson`, `isCollection` */
  function Is(item: Thing, k: ItemType): (b: bool)
    ensures b <==> HasAllTypes(item, [UrlText(TypeIri(k))])
  {
    assert AsUrlString([UrlText(TypeIri(k))][0]) == TypeIri(k);
    HasType(item, TypeIri(k))
  }

  /** `getItemType(item)`: the first kind, in the order note, file, image,
      bookmark, person, collection, that the item has; null for none. */
  function GetItemType(item: Thing): (r: Option<ItemType>)
    ensures r.Some? ==> Is(item, r.value)
    ensures r.Some? ==> forall k :: Rank(k) < Rank(r.value) ==> !Is(item, k)
    ensures r.None? <==> forall k :: !Is(item, k)
  {
    if Is(item, NoteType) then Some(NoteType)
    else if Is(item, FileType) then Some(FileType)
    else if Is(item, ImageType) then Some(ImageType)
    else if Is(item, BookmarkType) then Some(BookmarkType)
    else if Is(item, PersonType) then Some(PersonType)
    else if Is(item, CollectionType) then Some(CollectionType)
    else None
  }

  /** An item of exactly one kind is classified as that kind. */
  lemma GetItemTypeSingle(item: Thing, k: ItemType)
    requires Is(item, k) && forall j :: j != k ==> !Is(item, j)
    ensures GetItemType(item) == Some(k)
  {
    var r := GetItemType(item);
    assert r.Some? && Is(item, r.value);
  }

  // ---------------------------------------------------------------------
  /** An item of any kind has a kind: getItemType finds one, and not one
      later in the order than k. */
  lemma IsGetItemType(item: Thing, k: ItemType)
    requires Is(item, k)
    ensures GetItemType(item).Some? && Rank(GetItemType(item).value) <= Rank(k)
  {
  }

  // About, tags, note body

  /** `getAbout(concept)`: the first `sioc:about` URL, null when there is none. */
  function GetAbout(concept: Thing): (r: Option<string>)
    ensures r.None? <==> GetUrlAll(concept, SIOC_ABOUT) == []
    ensures r.Some? ==> r.value == GetUrlAll(concept, SIOC_ABOUT)[0]
  {
    GetUrl(concept, SIOC_ABOUT)
  }

  /** `setAbout(concept, about)`: about replaces every earlier value. */
  function SetAbout(concept: Thing, about: string): (r: Thing)
    ensures r.url == concept.url
    ensures forall q :: ObjectsOf(r, q) == if q == SIOC_ABOUT then Objects([about], []) else ObjectsOf(concept, q)
  {
    SetUrl(concept, SIOC_ABOUT, about)
  }

  lemma GetAboutSetAbout(concept: Thing, about: string)
    ensures GetAbout(SetAbout(concept, about)) == Some(about)
    ensures GetUrlAll(SetAbout(concept, about), SIOC_ABOUT) == [about]
  {
  }

  function TagLiterals(names: seq<string>): (r: seq<Literal>)
    ensures |r| == |names| && forall i :: 0 <= i < |names| ==> r[i] == XString(names[i])
  {
    if names == [] then [] else [XString(names[0])] + TagLiterals(names[1..])
  }

  /** The fold of setTags: each name added as one more `tagged` string. */
  function AddTags(item: Thing, names: seq<string>): (r: Thing)
    ensures r.url == item.url
    ensures ObjectsOf(r, GARDEN_TAGGED) ==
              Objects(ObjectsOf(item, GARDEN_TAGGED).urls, ObjectsOf(item, GARDEN_TAGGED).literals + TagLiterals(names))
    ensures forall q :: q != GARDEN_TAGGED ==> ObjectsOf(r, q) == ObjectsOf(item, q)
    decreases |names|
  {
    if names == [] then
      assert ObjectsOf(item, GARDEN_TAGGED).literals + [] == ObjectsOf(item, GARDEN_TAGGED).literals;
      item
    else
      var next := AddLiteral(item, GARDEN_TAGGED, XString(names[0]));
      TagLiteralsCons(ObjectsOf(item, GARDEN_TAGGED).literals, names);
      AddTags(next, names[1..])
  }

  lemma TagLiteralsCons(ls: seq<Literal>, names: seq<string>)
    requires names != []
    ensures (ls + [XString(names[0])]) + TagLiterals(names[1..]) == ls + TagLiterals(names)
  {
    assert TagLiterals(names) == [XString(names[0])] + TagLiterals(names[1..]);
  }

  /** `setTags(item, tagNames)`: every earlier tag removed, then each name added. */
  function SetTags(item: Thing, names: seq<string>): (r: Thing)
    ensures r.url == item.url
    ensures ObjectsOf(r, GARDEN_TAGGED) == Objects([], TagLiterals(names))
    ensures forall q :: q != GARDEN_TAGGED ==> ObjectsOf(r, q) == ObjectsOf(item, q)
  {
    AddTags(RemoveAll(item, GARDEN_TAGGED), names)
  }

  /** `getTags(item)`: the plain string literals of `garden:tagged`, in
      order; literals of other datatypes are not tags. */
  function GetTags(item: Thing): (r: seq<string>)
    ensures |r| <= |ObjectsOf(item, GARDEN_TAGGED).literals|
    ensures forall i :: 0 <= i < |r| ==> XString(r[i]) in ObjectsOf(item, GARDEN_TAGGED).literals
    ensures forall l :: l in ObjectsOf(item, GARDEN_TAGGED).literals && l.XString? ==> l.s in r
  {
    GetStringNoLocaleAll(item, GARDEN_TAGGED)
  }

  lemma {:induction false} StringsOfTags(names: seq<string>)
    ensures Strings(TagLiterals(names)) == names
  {
    if names != [] {
      StringsOfTags(names[1..]);
      assert TagLiterals(names)[1..] == TagLiterals(names[1..]);
    }
  }

  /** The tags read back are exactly the names set, in order; no earlier
      tag survives. */
  lemma GetTagsSetTags(item: Thing, names: seq<string>)
    ensures GetTags(SetTags(item, names)) == names
  {
    StringsOfTags(names);
  }

  /** `getNoteBody(item)`: the `sioc:about` URL of a note; null for anything else. */
  function GetNoteBody(item: Thing): (r: Option<string>)
    ensures !Is(item, NoteType) ==> r.None?
    ensures Is(item, NoteType) ==> r == GetAbout(item)
  {
    if Is(item, NoteType) then GetAbout(item) else None
  }

  // ---------------------------------------------------------------------
  // Options

  /** `Options`: each field may be absent. */
  datatype Options = Options(
    title: Option<string>,
    format: Option<string>,
    description: Option<string>,
    depiction: Option<string>,
    nick: Option<string>)

  /** A field is applied when it is truthy: present and non-empty. */
  predicate Given(x: Option<string>) {
    x.Some? && x.value != ""
  }

  /** The fields of Options, each tied to the predicate it sets. */
  datatype OptionKey = TitleKey | FormatKey | DescriptionKey | DepictionKey | NickKey

  function KeyPredicate(k: OptionKey): string {
    match k
    case TitleKey => DCTERMS_TITLE
    case FormatKey => DCTERMS_FORMAT
    case DescriptionKey => DCTERMS_DESCRIPTION
    case DepictionKey => FOAF_DEPICTION
    case NickKey => FOAF_NICK
  }

  /** The option field whose predicate is p, if there is one. */
  function KeyOf(p: string): (r: Option<OptionKey>)
    ensures r.Some? ==> KeyPredicate(r.value) == p
    ensures forall k :: KeyPredicate(k) == p ==> r == Some(k)
  {
    if p == DCTERMS_TITLE then Some(TitleKey)
    else if p == DCTERMS_FORMAT then Some(FormatKey)
    else if p == DCTERMS_DESCRIPTION then Some(DescriptionKey)
    else if p == FOAF_DEPICTION then Some(DepictionKey)
    else if p == FOAF_NICK then Some(NickKey)
    else None
  }

  function Field(options: Options, k: OptionKey): Option<string> {
    match k
    case TitleKey => options.title
    case FormatKey => options.format
    case DescriptionKey => options.description
    case DepictionKey => options.depiction
    case NickKey => options.nick
  }

  function WithField(options: Options, k: OptionKey, x: Option<string>): (r: Options)
    ensures Field(r, k) == x && forall j :: j != k ==> Field(r, j) == Field(options, j)
  {
    match k
    case TitleKey => options.(title := x)
    case FormatKey => options.(format := x)
    case DescriptionKey => options.(description := x)
    case DepictionKey => options.(depiction := x)
    case NickKey => options.(nick := x)
  }

  /** A depiction is a URL; every other option a plain string. */
  function KeyObjects(k: OptionKey, v: string): Objects {
    if k == DepictionKey then Objects([v], []) else Objects([], [XString(v)])
  }

  /** What setOptions puts under p, when some option is applied to p. */
  function OptionValue(options: Options, p: string): Option<Objects> {
    match KeyOf(p)
    case None => None
    case Some(k) => if Given(Field(options, k)) then Some(KeyObjects(k, Field(options, k).value)) else None
  }

  /** The objects of p once options are applied over what p held. */
  function AfterOptions(options: Options, p: string, before: Objects): Objects {
    match OptionValue(options, p)
    case Some(o) => o
    case None => before
  }

  /** after is before with the option k applied when x is truthy. */
  ghost predicate OptionStep(before: Thing, after: Thing, k: OptionKey, x: Option<string>) {
    && after.url == before.url
    && (forall q :: q != KeyPredicate(k) ==> ObjectsOf(after, q) == ObjectsOf(before, q))
    && ObjectsOf(after, KeyPredicate(k)) ==
         if Given(x) then KeyObjects(k, x.value) else ObjectsOf(before, KeyPredicate(k))
  }

  /** One `if (options && options.<field>)` of setOptions: `setTitle`,
      `setStringNoLocale` of the format, `setDescription`, `setDepiction` or
      `setStringNoLocale` of the nick. */
  function ApplyOption(item: Thing, k: OptionKey, x: Option<string>): (r: Thing)
    ensures OptionStep(item, r, k, x)
  {
    if !Given(x) then item
    else
      match k
      case TitleKey => SetTitle(item, x.value)
      case FormatKey => SetLiteral(item, DCTERMS_FORMAT, XString(x.value))
      case DescriptionKey => SetDescription(item, x.value)
      case DepictionKey => SetDepiction(item, x.value)
      case NickKey => SetLiteral(item, FOAF_NICK, XString(x.value))
  }

  /** r holds item with the options a applied. */
  ghost predicate Applied(item: Thing, r: Thing, a: Options) {
    && r.url == item.url
    && forall q :: ObjectsOf(r, q) == AfterOptions(a, q, ObjectsOf(item, q))
  }

  /** `setOptions(item, options)`: each truthy option replaces its predicate;
      every other predicate is untouched. */
  method SetOptions(item: Thing, options: Options) returns (r: Thing)
    ensures r.url == item.url
    ensures forall q :: ObjectsOf(r, q) == AfterOptions(options, q, ObjectsOf(item, q))
  {
    ghost var applied := Options(None, None, None, None, None);
    assert Applied(item, item, applied);
    r := ApplyOption(item, TitleKey, options.title);
    OptionApplied(item, item, r, applied, TitleKey, options.title);
    applied := applied.(title := options.title);
    var before := r;
    r := ApplyOption(r, FormatKey, options.format);
    OptionApplied(item, before, r, applied, FormatKey, options.format);
    applied := applied.(format := options.format);
    before := r;
    r := ApplyOption(r, DescriptionKey, options.description);
    OptionApplied(item, before, r, applied, DescriptionKey, options.description);
    applied := applied.(description := options.description);
    before := r;
    r := ApplyOption(r, DepictionKey, options.depiction);
    OptionApplied(item, before, r, applied, DepictionKey, options.depiction);
    applied := applied.(depiction := options.depiction);
    before := r;
    r := ApplyOption(r, NickKey, options.nick);
    OptionApplied(item, before, r, applied, NickKey, options.nick);
    applied := applied.(nick := options.nick);
    assert Applied(item, r, options);
  }

  /** One step of setOptions: applying the option k changes its predicate alone. */
  lemma OptionApplied(item: Thing, before: Thing, after: Thing, a: Options, k: OptionKey, x: Option<string>)
    requires Applied(item, before, a) && Field(a, k).None? && OptionStep(before, after, k, x)
    ensures Applied(item, after, WithField(a, k, x))
  {
    var b := WithField(a, k, x);
    forall q
      ensures ObjectsOf(after, q) == AfterOptions(b, q, ObjectsOf(item, q))
    {
      if q != KeyPredicate(k) {
        var j := KeyOf(q);
        assert j.Some? ==> j.value != k && Field(b, j.value) == Field(a, j.value);
      }
    }
  }

  // ---------------------------------------------------------------------
  // Creation

  /** The predicates createItem fills in. */
  predicate ItemPredicate(q: string) {
    q == RDF_TYPE || q == DCTERMS_CREATED || q == DCTERMS_MODIFIED || q == DCTERMS_CREATOR
  }

  /** The `buildThing(createThingWithUUID())` chain of createItem: the two
      timestamps, then the creator when webId is truthy. */
  function BuildItem(uuid: string, created: int, modified: int, webId: Option<string>): (r: Thing)
    ensures r.url == NewUuidUrn(uuid)
    ensures ObjectsOf(r, RDF_TYPE) == NO_OBJECTS
    ensures ObjectsOf(r, DCTERMS_CREATED) == Objects([], [XDateTime(created)])
    ensures ObjectsOf(r, DCTERMS_MODIFIED) == Objects([], [XDateTime(modified)])
    ensures ObjectsOf(r, DCTERMS_CREATOR) == Objects(if Given(webId) then [webId.value] else [], [])
    ensures forall q :: !ItemPredicate(q) ==> ObjectsOf(r, q) == NO_OBJECTS
  {
    var stamped := Stamped(uuid, created, modified);
    if Given(webId) then AddUrl(stamped, DCTERMS_CREATOR, webId.value) else stamped
  }

  /** The two `addDatetime` calls of createItem on a fresh thing. */
  function Stamped(uuid: string, created: int, modified: int): (r: Thing)
    ensures r.url == NewUuidUrn(uuid)
    ensures ObjectsOf(r, DCTERMS_CREATED) == Objects([], [XDateTime(created)])
    ensures ObjectsOf(r, DCTERMS_MODIFIED) == Objects([], [XDateTime(modified)])
    ensures forall q :: q != DCTERMS_CREATED && q != DCTERMS_MODIFIED ==> ObjectsOf(r, q) == NO_OBJECTS
  {
    var blank := CreateThingWithUUID(uuid);
    assert forall q :: ObjectsOf(blank, q) == NO_OBJECTS;
    AddLiteral(AddLiteral(blank, DCTERMS_CREATED, XDateTime(created)), DCTERMS_MODIFIED, XDateTime(modified))
  }

  /** `createItem(webId)`: a UUID-named item with its two timestamps, its
      creator when webId is truthy, and the type `MY.Garden.Item`. The UUID
      and the two clock readings are parameters. */
  method CreateItem(uuid: string, created: int, modified: int, webId: Option<string>) returns (item: Thing)
    ensures item.url == NewUuidUrn(uuid) && IsItem(item)
    ensures ObjectsOf(item, RDF_TYPE) == Objects([GARDEN_ITEM], [])
    ensures ObjectsOf(item, DCTERMS_CREATED) == Objects([], [XDateTime(created)])
    ensures ObjectsOf(item, DCTERMS_MODIFIED) == Objects([], [XDateTime(modified)])
    ensures ObjectsOf(item, DCTERMS_CREATOR) == Objects(if Given(webId) then [webId.value] else [], [])
    ensures forall q :: !ItemPredicate(q) ==> ObjectsOf(item, q) == NO_OBJECTS
  {
    var built := BuildItem(uuid, created, modified, webId);
    item := AddRDFType(built, UrlText(GARDEN_ITEM));
  }

  /** No option touches the predicates an item is created with, nor `sioc:about`. */
  lemma OptionsSpare(options: Options, p: string, before: Objects)
    requires ItemPredicate(p) || p == SIOC_ABOUT
    ensures AfterOptions(options, p, before) == before
  {
    assert KeyOf(p).None?;
  }

  /** `createConcept(webId, about, options)`: an item also typed
      `skos:Concept` and `MY.Garden.Concept`, with the options applied and
      `sioc:about` set to about. */
  method CreateConcept(uuid: string, created: int, modified: int, webId: string, about: string, options: Option<Options>)
    returns (concept: Thing)
    ensures concept.url == NewUuidUrn(uuid) && IsItem(concept)
    ensures ObjectsOf(concept, RDF_TYPE) == Objects([GARDEN_ITEM, SKOS_CONCEPT, GARDEN_CONCEPT], [])
    ensures ObjectsOf(concept, SIOC_ABOUT) == Objects([about], [])
    ensures ObjectsOf(concept, DCTERMS_CREATOR) == Objects(if webId != "" then [webId] else [], [])
    ensures ObjectsOf(concept, DCTERMS_CREATED) == Objects([], [XDateTime(created)])
    ensures ObjectsOf(concept, DCTERMS_MODIFIED) == Objects([], [XDateTime(modified)])
    ensures forall q :: q != SIOC_ABOUT && !ItemPredicate(q) ==>
              ObjectsOf(concept, q) == if options.Some? then AfterOptions(options.value, q, NO_OBJECTS) else NO_OBJECTS
  {
    concept := CreateItem(uuid, created, modified, Some(webId));
    var ts := [UrlText(SKOS_CONCEPT), UrlText(GARDEN_CONCEPT)];
    assert UrlStrings(ts) == [SKOS_CONCEPT, GARDEN_CONCEPT];
    concept := AddRDFTypes(concept, ts);
    ghost var types := ObjectsOf(concept, RDF_TYPE);
    assert types == Objects([GARDEN_ITEM, SKOS_CONCEPT, GARDEN_CONCEPT], []);
    if options.Some? {
      var typed := concept;
      concept := SetOptions(concept, options.value);
      forall p | ItemPredicate(p)
        ensures ObjectsOf(concept, p) == ObjectsOf(typed, p)
      {
        OptionsSpare(options.value, p, ObjectsOf(typed, p));
      }
    }
    assert ObjectsOf(concept, RDF_TYPE) == types;
    concept := SetAbout(concept, about);
  }

  /** The types every concept carries, followed by its kind. */
  function ConceptTypes(k: ItemType): seq<string> {
    [GARDEN_ITEM, SKOS_CONCEPT, GARDEN_CONCEPT, TypeIri(k)]
  }

  /** A concept typed with one kind is classified as that kind. */
  lemma ConceptKind(concept: Thing, k: ItemType)
    requires GetUrlAll(concept, RDF_TYPE) == ConceptTypes(k)
    ensures IsItem(concept) && GetItemType(concept) == Some(k)
  {
    forall j | j != k
      ensures !Is(concept, j)
    {
      assert TypeIri(j) != TypeIri(k);
    }
    GetItemTypeSingle(concept, k);
  }

  /** createImage, createFile, createBookmark, createNote and createPerson:
      a concept with one more type. */
  method CreateKind(k: ItemType, uuid: string, created: int, modified: int, webId: string, about: string,
                    options: Option<Options>) returns (r: Thing)
    requires k != CollectionType
    ensures r.url == NewUuidUrn(uuid) && IsItem(r)
    ensures GetUrlAll(r, RDF_TYPE) == ConceptTypes(k)
    ensures ObjectsOf(r, RDF_TYPE) == Objects(ConceptTypes(k), [])
    ensures ObjectsOf(r, SIOC_ABOUT) == Objects([about], [])
    ensures GetItemType(r) == Some(k)
    ensures GetAbout(r) == Some(about)
    ensures k == NoteType ==> GetNoteBody(r) == Some(about)
    ensures ObjectsOf(r, DCTERMS_CREATOR) == Objects(if webId != "" then [webId] else [], [])
    ensures ObjectsOf(r, DCTERMS_CREATED) == Objects([], [XDateTime(created)])
    ensures ObjectsOf(r, DCTERMS_MODIFIED) == Objects([], [XDateTime(modified)])
    ensures forall q :: q != SIOC_ABOUT && !ItemPredicate(q) ==>
              ObjectsOf(r, q) == if options.Some? then AfterOptions(options.value, q, NO_OBJECTS) else NO_OBJECTS
  {
    var concept := CreateConcept(uuid, created, modified, webId, about, options);
    r := AddRDFType(concept, UrlText(TypeIri(k)));
    ConceptKind(r, k);
    assert ObjectsOf(r, DCTERMS_CREATOR) == ObjectsOf(concept, DCTERMS_CREATOR);
    assert ObjectsOf(r, DCTERMS_CREATED) == ObjectsOf(concept, DCTERMS_CREATED);
    assert ObjectsOf(r, DCTERMS_MODIFIED) == ObjectsOf(concept, DCTERMS_MODIFIED);
  }

  /** `createCollection(webId, options)`: an item with the options applied,
      then typed `skos:Collection` and `MY.Garden.Collection`. */
  method CreateCollection(uuid: string, created: int, modified: int, webId: string, options: Option<Options>)
    returns (collection: Thing)
    ensures collection.url == NewUuidUrn(uuid) && IsItem(collection)
    ensures GetUrlAll(collection, RDF_TYPE) == [GARDEN_ITEM, SKOS_COLLECTION, GARDEN_COLLECTION]
    ensures ObjectsOf(collection, RDF_TYPE) == Objects([GARDEN_ITEM, SKOS_COLLECTION, GARDEN_COLLECTION], [])
    ensures GetItemType(collection) == Some(CollectionType)
    ensures ObjectsOf(collection, DCTERMS_CREATOR) == Objects(if webId != "" then [webId] else [], [])
    ensures ObjectsOf(collection, DCTERMS_CREATED) == Objects([], [XDateTime(created)])
    ensures ObjectsOf(collection, DCTERMS_MODIFIED) == Objects([], [XDateTime(modified)])
    ensures forall q :: !ItemPredicate(q) ==>
              ObjectsOf(collection, q) == if options.Some? then AfterOptions(options.value, q, NO_OBJECTS) else NO_OBJECTS
  {
    collection := CreateItem(uuid, created, modified, Some(webId));
    if options.Some? {
      var item := collection;
      collection := SetOptions(collection, options.value);
      forall p | ItemPredicate(p)
        ensures ObjectsOf(collection, p) == ObjectsOf(item, p)
      {
        OptionsSpare(options.value, p, ObjectsOf(item, p));
      }
    }
    var ts := [UrlText(SKOS_COLLECTION), UrlText(GARDEN_COLLECTION)];
    assert UrlStrings(ts) == [SKOS_COLLECTION, GARDEN_COLLECTION];
    assert GetUrlAll(collection, RDF_TYPE) == [GARDEN_ITEM];
    collection := AddRDFTypes(collection, ts);
    var types := GetUrlAll(collection, RDF_TYPE);
    assert types == [GARDEN_ITEM, SKOS_COLLECTION, GARDEN_COLLECTION];
    CollectionKind(collection);
  }

  /** A collection's types classify it as a collection. */
  lemma CollectionKind(collection: Thing)
    requires GetUrlAll(collection, RDF_TYPE) == [GARDEN_ITEM, SKOS_COLLECTION, GARDEN_COLLECTION]
    ensures IsItem(collection) && GetItemType(collection) == Some(CollectionType)
  {
    forall j | j != CollectionType
      ensures !Is(collection, j)
    {
      assert TypeIri(j) !in [GARDEN_ITEM, SKOS_COLLECTION, GARDEN_COLLECTION];
    }
    GetItemTypeSingle(collection, CollectionType);
  }
}

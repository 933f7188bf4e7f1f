# garden-kit core in Dafny

A model of the core of garden-kit, a TypeScript library for "digital garden"
data stored as RDF things in Solid pods. The model covers three parts:

- The note codec (`src/note.ts`, `src/collections.ts`). It turns a Slate
  document into linked RDF list cells and element records, and reads it back
  from a dataset.
- The helpers for RDF types, UUIDs and local URLs (`src/utils.ts`).
- The garden items (`src/items.ts`). These are typed things with creation
  stamps, options, tags and an `about` link.

Modules:

- `Wrappers`: `Option` and `Result`.
- `Js`: the JavaScript behaviour the code relies on. This covers numbers as
  exact decimals, `Number.isInteger`, `${n}` for plain decimal numbers,
  `indexOf`, and the second piece of `split`. It also covers the order in
  which an object lists its own keys. Array-index keys come first, in
  ascending numeric order, and the other keys follow in creation order
  (sections 6.1.7 and 10.1.11.1 of ECMA-262).
- `Vocab`: the IRIs used (RDF, Dublin Core, FOAF, SKOS, SIOC, the garden
  vocabulary and the note namespace).
- `Rdf`: the Solid client library as the core uses it. A `Thing` is a URL
  plus an ordered list of predicates, in insertion order. That is the order
  JavaScript lists the keys of `thing.predicates`, because a predicate IRI is
  never an array index. The module has `addUrl`, `setUrl`,
  `setStringNoLocale` and the other setters, `removeAll`, `getUrl`,
  `getUrlAll`, `createThing` and `setThing`/`getThing` over a dataset.
- `Collections`: `arrayToThings`, which builds one `li-…` cell per element
  with `rdf:first`/`rdf:rest` links. It also holds `thingsToArray` over any
  converter, and the chain of cells it walks.
- `Note`: the encoder, as pure functions with a `Result` for the error the
  source throws. It also holds the decoder. A decoded object is a list of
  fields in JavaScript's own-key order, and `obj[key] = v` creates a new key
  at the place that order gives it. The decoder is a specification
  function plus the imperative `NoteThingToSlateObject` method that runs the
  `for…in` loop.
- `NoteRoundTrip`: storing the encoder's things in a dataset and decoding
  from the head cell gives back the document. The exceptions are stated
  exactly: values the decoder never reads are dropped, zero numbers and
  non-integer numbers come back missing, and a `__proto__` key is read into
  the inherited setter and so does not come back.
- `Utils` and `Items`: the helpers and item constructors. Where the source
  loops (`hasRDFTypes`, `addRDFTypes`) the model is a method with a loop.
  Where it reassigns a local thing step by step (`setOptions`,
  `createConcept`, `createCollection`) the model is a method that does the
  same.

Calls to `uuid.v4()` and `new Date()` become parameters (`uuid`, `created`,
`modified`). `uuid.validate` becomes a predicate parameter.

## Model

| member | source | states |
|---|---|---|
| Collections.PathAt | src/collections.ts:12-14 | the next element's path keeps every index but the last, which moves on by the element's offset |
| Collections.PathAtPathAt | src/collections.ts:14 | moving on by i and then by j is moving on by i + j, so the k-th recursive call names the k-th element |
| Collections.PathAtZero | src/collections.ts:10-13 | the first element is named by the path it was given |
| Collections.ListCellLinks | src/collections.ts:15-18 | a list cell's `rdf:first` names the element's thing and its `rdf:rest` names the next cell or `rdf:nil` |
| Collections.ArrayToThings | src/collections.ts:10-21 | the first thing returned is the head cell of the list, the one that names element 0 |
| Collections.ArrayToThingsUnfold | src/collections.ts:13-20 | the output is the cell, the converter's things for the element, then the rest of the list, or a missing thing after the last element |
| Collections.CellAtSuffix | src/collections.ts:14 | the cell built for the k-th element by the recursion is the k-th cell of the whole list |
| Collections.ArrayToThingsLayout | src/collections.ts:10-21 | every suffix of the output is laid out element by element with the cell and the element's things, in list order |
| Note.Assign | src/note.ts:99-112 | `obj[key] = v` gives key the value v and leaves the other keys alone. An existing key keeps its place. A new key is created after every key that precedes it in JavaScript's order, so array indices stay first and ascending. Assigning `__proto__` to an object without that own key runs the inherited setter and leaves the keys as they were. The result is again a JavaScript object |
| Note.NewKeyPlace | src/note.ts:99-112 | a new key goes after every key that precedes it in JavaScript's own-key order and before the first one that does not |
| Note.InsertKeepsOrder | src/note.ts:99-112 | inserting a new key at that place keeps the keys distinct and in JavaScript's order |
| Js.NatText | src/collections.ts:15 | the text of a path index in `path.join("-")` is canonical decimal digits that spell the index |
| Js.Normalize | src/note.ts:62 | the form `${o.id}` prints a number in: no trailing fractional zeros, the same value, and a canonical number unchanged |
| Js.KeyBeforeTransitive | src/note.ts:93 | JavaScript's own-key order is transitive |
| Js.CanonicalDigitsText | src/note.ts:93 | a canonical digit string is the decimal text of its value, so two distinct array-index keys have distinct values |
| Note.AddKeyValToThing | src/note.ts:21-55 | encoding one value fails exactly when an array somewhere inside it is empty; on success the thing keeps its URL |
| Note.FoldFields | src/note.ts:64-76 | folding the keys succeeds exactly when every value encodes, and the record keeps its URL |
| Note.CreateThingFromSlateJSOElement | src/note.ts:57-78 | an element encodes exactly when all its values do; then it yields the blank thing named by `id` or by `el-` and the path, then the filled record at the same URL |
| Note.ConvertAll | src/collections.ts:13-14 | converting the elements succeeds exactly when each one encodes; the i-th output starts with the record of element i at the i-th path |
| Note.ConvertedCons | src/collections.ts:13-14 | the first element's output followed by the rest's keeps the per-element naming |
| Note.EncodeList | src/note.ts:27-32 | a list encodes exactly when it is non-empty and every element encodes; the first thing is the head cell linking the first record and the next cell |
| Note.DecodeEntriesNone | src/note.ts:93-117 | once reading a prefix of the predicates has run out of fuel, reading all of them has too |
| Note.DecodeEntriesStep | src/note.ts:93-117 | reading one more predicate is one more loop iteration on the object built so far |
| Note.NoteThingToSlateObject | src/note.ts:91-120 | the loop over the predicates builds exactly the object that the decoding function specifies |
| Note.DecodeEntry | src/note.ts:94-115 | one loop iteration keeps the object a JavaScript object, and can only fail while reading a `children` list |
| Note.DecodeForeign | src/note.ts:94-95 | a predicate with no text after the note namespace leaves the object as it was |
| Note.DecodeFirstString | src/note.ts:104-106 | a key with any string literal gets the first string literal's value, whatever booleans or integers come before it |
| Note.DecodeFirstBoolean | src/note.ts:107-109 | a key with no string literal gets the first boolean literal's value |
| Note.DecodeFirstInteger | src/note.ts:110-112 | a key with neither a string nor a boolean literal gets the first integer literal, and only when it is not zero |
| Note.DecodeNoScalar | src/note.ts:103-113 | a key with no string, boolean or integer literal is not set |
| Note.DecodeEntries | src/note.ts:92-117 | the object built from any run of predicates is a JavaScript object |
| Note.ObjectFromThing | src/note.ts:91-120 | noteThingToSlateObject returns a JavaScript object |
| Note.ChildrenArrayFromDataset | src/note.ts:80-88 | a children URL the dataset does not hold gives the empty array; every element read is a JavaScript object |
| Note.ThingsToArray | src/collections.ts:25-35 | the array read has at most as many elements as the fuel allows, and every element is a JavaScript object |
| Note.ThingsToArrayIsGeneric | src/note.ts:84 | the decoder's list reader is `thingsToArray` with noteThingToSlateObject as its converter |
| Collections.Chain | src/collections.ts:26-27 | the chain of cells starts at the given cell, each cell's `rdf:rest` resolves to the next, and only the last cell's `rest` ends the list |
| Collections.ThingsToArrayWithCons | src/collections.ts:28-34 | a non-empty result starts with the converted `first` thing, followed by the array read from the `rest` cell |
| Collections.ThingsToArrayWithAt | src/collections.ts:25-35 | element i is what the converter makes of the thing named by the `first` of cell i of the chain |
| Collections.ThingsToArrayWithChain | src/collections.ts:28-34 | the array is no longer than the chain, and a shorter array stops at a cell whose `first` does not resolve |
| NoteRoundTrip.StoreAll | test/note.test.ts:147 | storing things keeps every URL already in the dataset and adds the URL of every thing stored |
| NoteRoundTrip.StoreAllAppend | test/note.test.ts:147 | storing two runs of things one after the other equals storing them in one pass |
| NoteRoundTrip.AddKeyValShape | src/note.ts:21-55 | on a predicate the record lacks, encoding a field appends exactly that field's entry and returns the list things of an array |
| NoteRoundTrip.FoldShape | src/note.ts:64-76 | with distinct keys, the fold appends each field's entry in key order and gathers the sub-things in key order |
| NoteRoundTrip.ElementShape | src/note.ts:57-78 | an element with distinct keys encodes to its blank thing, its record with every field's entry, then its sub-lists |
| NoteRoundTrip.EncodeSlots | src/collections.ts:10-21 | a list's output is the head cell, the element's blank thing and record, its sub-lists, then the tail |
| NoteRoundTrip.EncodeListStores | test/note.test.ts:144-147 | storing the encoder's output puts every cell and record of the list in the dataset and changes no other URL |
| NoteRoundTrip.AssignNew | src/note.ts:106-112 | assigning a key the object lacks, when every present key precedes it in JavaScript's order, appends it last |
| NoteRoundTrip.RestoredBefore | src/note.ts:93-117 | while a record of a JavaScript object is read back, every key read so far precedes the next one, so each assignment appends |
| NoteRoundTrip.RestoredKeys | src/note.ts:93-117 | decoding never invents a key the document did not have |
| NoteRoundTrip.DecodeProto | src/note.ts:106 | a `__proto__` entry creates no key on the object being read |
| NoteRoundTrip.DecodeStr | src/note.ts:104-106 | a string predicate is read back as that string, the empty string included |
| NoteRoundTrip.DecodeBool | src/note.ts:107-109 | a boolean predicate is read back as that boolean, false included |
| NoteRoundTrip.DecodeInteger | src/note.ts:110-112 | an integer predicate is read back as that integer when it is not zero |
| NoteRoundTrip.DecodeNoInteger | src/note.ts:110-112 | a decimal, or the integer zero, leaves the object without that key |
| NoteRoundTrip.DecodeSkipped | src/note.ts:94-99 | the empty key, a non-array `children` and an array under another key are not read back |
| NoteRoundTrip.DecodeChildren | src/note.ts:96-99 | `children` is read back as the decoded list its URL points to |
| NoteRoundTrip.DecodeScalar | src/note.ts:101-113 | each scalar field's entry decodes to its restored form appended to the object |
| NoteRoundTrip.DecodeList | src/collections.ts:25-35 | walking a stored list from its head cell gives the restored elements in order |
| NoteRoundTrip.DecodeObj | src/note.ts:91-120 | reading a stored record gives the restored element |
| NoteRoundTrip.DecodePrefix | src/note.ts:93-117 | after the entries of the first j fields, the object holds the restored first j fields |
| NoteRoundTrip.DecodeChildList | src/note.ts:80-88 | the children URL of a stored list decodes to the restored list |
| NoteRoundTrip.RoundTrip | test/note.test.ts:142-163 | encoding, storing every thing and decoding from the head cell gives back the document less exactly what the decoder does not read |
| NoteRoundTrip.RestoredListIdentity | test/note.test.ts:162 | a document whose every value the decoder reads is restored unchanged |
| NoteRoundTrip.RestoredListFaithful | test/note.test.ts:162 | what the decoder returns holds only values it reads |
| NoteRoundTrip.RestoredIdempotent | test/note.test.ts:162 | a second round trip changes nothing more |
| NoteRoundTrip.RoundTripExact | test/note.test.ts:142-163 | a document of strings, booleans, non-zero integers and non-empty `children` arrays, with no `__proto__` key, comes back exactly, key order included |
| NoteRoundTrip.ExampleRoundTrip | test/note.test.ts:162 | a paragraph with one text child survives the round trip |
| Utils.AsUrlString | src/utils.ts:41-43 | a string is returned as is; a named node gives its value |
| Utils.HasRDFTypes | src/utils.ts:101-108 | the flag is true exactly when every given type is among the thing's `rdf:type` values |
| Utils.HasRDFType | src/utils.ts:110-112 | true exactly when the type is among the thing's types |
| Utils.AddRDFType | src/utils.ts:121-123 | the type is appended to `rdf:type`; nothing else changes |
| Utils.AddRDFTypeHas | src/utils.ts:121-123 | after adding, the thing has the new type and exactly the types it had before |
| Utils.AddRDFTypes | src/utils.ts:114-119 | the loop appends the types in order; nothing else changes, and `hasRDFTypes` then holds for them |
| Utils.NewUuidUrn | src/utils.ts:28-31 | the URN is `urn:uuid:` followed by the UUID |
| Utils.CreateThingWithUUID | src/utils.ts:77-79 | a thing with no predicates, named by a fresh UUID URN, which is not a local thing |
| Utils.IsUUID | src/utils.ts:45-52 | true exactly when the URL is `urn:uuid:` followed by a string that `uuid.validate` accepts |
| Utils.FindUUID | src/utils.ts:66 | the result is a UUID URN among the URLs, or none of them is one |
| Utils.FindUUIDFirst | src/utils.ts:66 | the result is the first UUID URN in list order |
| Utils.GetUUID | src/utils.ts:58-67 | a UUID URN, from the URL of a non-local thing or from `owl:sameAs`; null exactly when neither has one |
| Utils.AddUUID | src/utils.ts:54-56 | a new UUID URN is appended to `owl:sameAs`; nothing else changes |
| Utils.EnsureUUID | src/utils.ts:69-75 | a thing with a UUID is returned unchanged; otherwise one is added |
| Utils.EnsureUUIDIdempotent | src/utils.ts:69-75 | after ensureUUID the thing has a UUID, and a second call changes nothing |
| Utils.SlugToLocalUrl | src/utils.ts:92 | the fallback URL is the local-node prefix followed by the slug |
| Utils.SlugToLocalUrlNamesThing | src/utils.ts:92 | the fallback URL is the URL `createThing` gives a thing with that name |
| Utils.ExpandLocalHash | src/utils.ts:159-165 | a leading `#` is replaced by the local-node prefix; anything else is unchanged; the result never starts with `#` |
| Utils.ExpandLocalHashIdempotent | src/utils.ts:159-165 | expanding twice is expanding once |
| Utils.GetUrlExpandLocalHash | src/utils.ts:157-166 | null exactly when the predicate has no URL; otherwise the expanded URL |
| Utils.ExpandLocalHashFindsLocalThing | src/utils.ts:157-166 | a `#name` reference expands to the URL of the local thing called name |
| Utils.SetTitle | src/utils.ts:141-143 | the title becomes the one string; nothing else changes |
| Utils.SetDescription | src/utils.ts:145-147 | the description becomes the one string; nothing else changes |
| Utils.SetDepiction | src/utils.ts:149-151 | the depiction becomes the one URL; nothing else changes |
| Items.IsItem | src/items.ts:53-55 | isItem is hasAllRDFTypes for the one type garden:Item |
| Items.Is | src/items.ts:74-96 | each isX is hasAllRDFTypes for that kind's one type |
| Items.IsGetItemType | src/items.ts:57-96 | an item of some kind gets a kind from getItemType, none later in the order than that kind |
| Items.GetAbout | src/items.ts:98-100 | the first `sioc:about` URL, and null exactly when there is none |
| Items.GetTags | src/items.ts:114-116 | every tag is the text of a plain string literal under `garden:tagged`, every such literal's text is a tag, and there are no more tags than literals |
| Rdf.StringsAppend | src/items.ts:114-116 | the strings read from two runs of literals are those of the first run followed by those of the second; with `Rdf.StringsOne` this makes the tags the string literals filtered in order |
| Rdf.StringsOne | src/items.ts:114-116 | one literal gives its text if it is a string, and nothing otherwise |
| Rdf.StringsFirst | src/note.ts:104-105 | the first string read is the text of the first string literal, whatever literals of other types come before it |
| Rdf.BooleansFirst | src/note.ts:107-108 | the first boolean read is the value of the first boolean literal |
| Rdf.IntegersFirst | src/note.ts:110-111 | the first integer read is the value of the first integer literal |
| Rdf.BooleansNone | src/note.ts:107 | without a boolean literal no boolean is read |
| Rdf.IntegersNone | src/note.ts:110 | without an integer literal no integer is read |
| Items.GetItemType | src/items.ts:57-72 | the first kind, in the order note, file, image, bookmark, person, collection, that the item has; null exactly when it has none |
| Items.GetItemTypeSingle | src/items.ts:57-96 | an item of exactly one kind is classified as that kind |
| Items.SetAbout | src/items.ts:102-104 | `sioc:about` becomes the one URL; nothing else changes |
| Items.GetAboutSetAbout | src/items.ts:98-104 | getAbout reads back what setAbout wrote |
| Items.AddTags | src/items.ts:108-111 | each tag is appended as a string, in order; nothing else changes |
| Items.SetTags | src/items.ts:106-112 | the tags become exactly the given names, in order; nothing else changes |
| Items.StringsOfTags | src/items.ts:114-116 | reading the tag strings back gives the names |
| Items.GetTagsSetTags | src/items.ts:106-116 | getTags after setTags gives the names set |
| Items.GetNoteBody | src/items.ts:122-128 | a note's body is its `about`; any other item has none |
| Items.KeyOf | src/items.ts:145-162 | each option's predicate is found back from the predicate, and only that option sets it |
| Items.ApplyOption | src/items.ts:146-160 | one truthy option replaces its predicate with its value; a falsy one changes nothing |
| Items.OptionApplied | src/items.ts:145-162 | applying one more option extends the options applied so far |
| Items.SetOptions | src/items.ts:145-162 | each truthy option replaces its predicate; every other predicate and the URL are unchanged |
| Items.OptionsSpare | src/items.ts:145-162 | no option touches the type, timestamps, creator or `about` |
| Items.BuildItem | src/items.ts:135-140 | a new UUID thing with both timestamps, and the creator exactly when webId is truthy |
| Items.CreateItem | src/items.ts:134-143 | the item is typed `garden:Item` only and carries the timestamps and the creator; it holds nothing else |
| Items.CreateConcept | src/items.ts:164-176 | the concept has the item, `skos:Concept` and `garden:Concept` types, its `about`, the item's stamps, and the options on every other predicate |
| Items.ConceptKind | src/items.ts:57-96 | a concept typed with one kind is an item of that kind |
| Items.CreateKind | src/items.ts:178-226 | createImage, createFile, createBookmark, createNote and createPerson give an item of that kind: `rdf:type` is exactly the concept types and the kind, `sioc:about` is exactly the URL, with the creator, both timestamps and the options on every other predicate; a note's body is that URL |
| Items.CreateCollection | src/items.ts:228-238 | the collection's `rdf:type` is exactly the item, `skos:Collection` and `garden:Collection` types, is classified a collection, carries the creator and both timestamps, and has the options on every other predicate |
| Items.CollectionKind | src/items.ts:57-96 | an item typed as a collection and nothing else is classified a collection |

## Left out

- Rdf.GetUrl: the Solid client's `getUrl` and `getUrlAll` return a local-node IRI abbreviated to `#name`. The model does not abbreviate: it returns the local-node IRI whole, which stands for the URL that saving resolves it to. So `Items.GetAbout` and `Items.GetNoteBody` on a local `about`, and the list walk over unsaved `li-`/`el-` cells, give the full IRI where the source gives `#name`, and no stored value reaches the `#` branch of `Utils.GetUrlExpandLocalHash`.
- Rdf.AddUrl: the Solid client rejects a URL value or thing URL that is not an absolute URL (it throws). URL validation is not modelled, so `setAbout`, `setDepiction` and `createItem` with such an `about`, `depiction` or `webId` return a thing where the source throws.
- Saving the dataset (`saveSolidDatasetAt`) and the URL rewriting it does are not modelled. Local URLs stay on the local-node prefix, and the round trip is stated over the dataset as stored.
- `isUUID`'s URL parsing is not modelled. A UUID URN is the `urn:uuid:` prefix followed by a string that the `uuid.validate` parameter accepts.
- `slugToUrl` with a base URL needs WHATWG URL resolution and is not modelled. Only its fallback for a missing base is.
- `uuid.v4()` and `new Date()` are parameters. The two `new Date()` calls of createItem are separate parameters, so they need not be equal.
- Numbers are exact decimals, not binary floating point. `${n}` is modelled for plain decimal notation only, not exponent notation.
- Note.ThingsToArray: decoding carries a fuel bound. A cyclic `rdf:rest` chain, on which the source recurses until the stack overflows, gives no result in the model.
- Note.ThingsToArray: the decoder's list reader is `thingsToArray` with the note decoder as its converter. That decoder always returns an object, so truncation at a falsy converter result cannot happen there. In `Collections.ThingsToArrayWith` a converter result of None stands for running out of fuel, not for a falsy element.
- NoteRoundTrip.RoundTrip: `addKeyValToThing` lists every array-valued key of an element from the path `[...path, 0]` (src/note.ts:28-32). Two array-valued keys in one element therefore get the same `li-` and `el-` names, and the second list overwrites the first when stored. `children` can then decode to the other key's list. The round trip requires that no two stored things share a URL, which rules out two array-valued keys in one element, so it says nothing about the collision.
- NoteRoundTrip.RoundTrip: it requires that the URLs the encoder picks do not collide, and that no key contains the note namespace. A clash between `id` values, or between an `id` and a generated `el-`/`li-` name, overwrites things in the source. Keys are required to be distinct, as they are in a JavaScript object.
- NoteRoundTrip.RoundTripExact: the Solid client's literal serialisation is not modelled, and an integer literal holds the exact integer. The library writes an integer with `toString`, so one of magnitude 10^21 or more is stored in exponent notation, and `parseInt` then reads back only its leading digit. The round trip holds for such integers only in the model.
- Note.Value: an array holds objects only. An array of strings, numbers or booleans, which the encoder would store as records keyed by character or index, cannot be expressed.
- An empty array makes `createThingFromSlateJSOElement` read `undefined.id` and throw. The model returns an error, so the `[]` branch of `addKeyValToThing` cannot be reached.
- Items.SetOptions: a missing `options` object behaves like one whose fields are all missing. The model passes the latter.
- The base58 slug helpers, `createPtr`, `getTitle`, `getDescription`, `getDepiction`, `getCreator`, `setCreator`, `updateItemBeforeSave` and `newNoteResourceName` are outside this model.
- src/vocab.ts as given does not define `noteNS` or `noteNSUrl`, which note.ts imports. The note namespace IRI is taken from test/note.test.ts:14.

/**
 When the report of what stays local can be relied on: exactly when no field that forwards what it reads stops
 above the leaf. The proof compares payloads that differ in one number, since masking leaves numbers alone.
 */
module Report {
  import opened Prelude
  import opened Json
  import opened Paths
  import opened Mapper
  import Cents
  import Digits
  import Denylist

  // ---- values that differ in one number ----

  /** The same value but for a number somewhere in it. */
  ghost predicate DiffersInNumber(v: Json, w: Json) {
    match v
    case Num(repr) => w.Num? && w.repr != repr
    case Arr(items) =>
      w.Arr? && |w.items| == |items| && exists i | 0 <= i < |items| :: DiffersInNumber(items[i], w.items[i])
    case Obj(fields) =>
      w.Obj? && |w.fields| == |fields| && exists i | 0 <= i < |fields| :: DiffersInNumber(fields[i].value, w.fields[i].value)
    case _ => false
  }

  lemma {:induction false} DifferentNumbersDiffer(v: Json, w: Json)
    requires DiffersInNumber(v, w)
    ensures v != w
  {
    match v
    case Arr(items) =>
      var i :| 0 <= i < |items| && DiffersInNumber(items[i], w.items[i]);
      DifferentNumbersDiffer(items[i], w.items[i]);
    case Obj(fields) =>
      var i :| 0 <= i < |fields| && DiffersInNumber(fields[i].value, w.fields[i].value);
      DifferentNumbersDiffer(fields[i].value, w.fields[i].value);
    case _ =>
  }

  /** Two nodes with the same keys that differ in a number of one entry. */
  lemma EntryDiffers(doc: Json, k: nat, v: Json, w: Json)
    requires k < Count(doc) && DiffersInNumber(v, w)
    ensures DiffersInNumber(PutAt(doc, k, v), PutAt(doc, k, w))
  {
    match doc
    case Arr(items) =>
      assert DiffersInNumber(items[k := v][k], items[k := w][k]);
    case Obj(fields) =>
      assert DiffersInNumber(fields[k := Field(fields[k].key, v)][k].value, fields[k := Field(fields[k].key, w)][k].value);
  }

  lemma {:induction false} PutsDiffer(doc: Json, path: seq<string>, a: string, b: string)
    requires Reaches(doc, path) && a != b
    ensures DiffersInNumber(Put(doc, path, Num(a)), Put(doc, path, Num(b)))
    decreases |path|
  {
    if path != [] {
      PutsDiffer(Child(doc, path[0]), path[1..], a, b);
      EntryDiffers(doc, Find(doc, path[0], 0), Put(Child(doc, path[0]), path[1..], Num(a)), Put(Child(doc, path[0]), path[1..], Num(b)));
    }
  }

  /** Both read something, and what they read differs in a number. */
  ghost predicate ReadApart(v: Option<Json>, w: Option<Json>) {
    v.Some? && w.Some? && DiffersInNumber(v.value, w.value)
  }

  ghost predicate SomeDiffers(s: seq<Json>, t: seq<Json>) {
    |s| == |t| && exists i | 0 <= i < |s| :: DiffersInNumber(s[i], t[i])
  }

  lemma SomeDiffersAfter(v: Option<Json>, s: seq<Json>, t: seq<Json>)
    requires SomeDiffers(s, t)
    ensures SomeDiffers(Prepended(v, s), Prepended(v, t))
  {
    var i :| 0 <= i < |s| && DiffersInNumber(s[i], t[i]);
    var n := if v.Some? then 1 else 0;
    assert Prepended(v, s)[i + n] == s[i] && Prepended(v, t)[i + n] == t[i];
  }

  lemma {:induction false} FanOutSame(number: string -> Option<nat>, node: Json, other: Json, rest: seq<string>, i: nat)
    requires Count(other) == Count(node) && i <= Count(node)
    requires forall j | i <= j < Count(node) :: ValueAt(other, j) == ValueAt(node, j)
    ensures FanOut(number, other, rest, i) == FanOut(number, node, rest, i)
    decreases Count(node) - i
  {
    if i < Count(node) {
      FanOutSame(number, node, other, rest, i + 1);
    }
  }

  lemma {:induction false} FanOutApart(number: string -> Option<nat>, node: Json, other: Json, rest: seq<string>, i: nat, k: nat)
    requires Count(other) == Count(node) && i <= k < Count(node)
    requires forall j | 0 <= j < Count(node) && j != k :: ValueAt(other, j) == ValueAt(node, j)
    requires ReadApart(GetSegments(number, ValueAt(node, k), rest), GetSegments(number, ValueAt(other, k), rest))
    ensures SomeDiffers(FanOut(number, node, rest, i), FanOut(number, other, rest, i))
    decreases Count(node) - i
  {
    if i == k {
      FanOutSame(number, node, other, rest, i + 1);
      var s, t := FanOut(number, node, rest, i), FanOut(number, other, rest, i);
      assert s[0] == GetSegments(number, ValueAt(node, k), rest).value && t[0] == GetSegments(number, ValueAt(other, k), rest).value;
    } else {
      FanOutApart(number, node, other, rest, i + 1, k);
      SomeDiffersAfter(GetSegments(number, ValueAt(node, i), rest), FanOut(number, node, rest, i + 1), FanOut(number, other, rest, i + 1));
    }
  }

  /** A source that covers a leaf reads apart when two numbers are put there. */
  lemma {:induction false} CoveringReadsApart(number: string -> Option<nat>, doc: Json, path: seq<string>, a: string, b: string,
                                              source: seq<string>)
    requires ReadsIndices(number) && IsCanonical(number, source) && Reaches(doc, path) && Covers(source, path) && a != b
    ensures ReadApart(GetSegments(number, Put(doc, path, Num(a)), source), GetSegments(number, Put(doc, path, Num(b)), source))
    decreases |source|
  {
    if source == [] {
      PutsDiffer(doc, path, a, b);
    } else {
      var k, child := Find(doc, path[0], 0), Child(doc, path[0]);
      var one, two := Put(child, path[1..], Num(a)), Put(child, path[1..], Num(b));
      CoversStep(source, path);
      CoveringReadsApart(number, child, path[1..], a, b, source[1..]);
      PutAtEntries(doc, k, one);
      PutAtEntries(doc, k, two);
      if source[0] == STAR {
        FanOutApart(number, PutAt(doc, k, one), PutAt(doc, k, two), source[1..], 0, k);
        StarReadsApart(number, PutAt(doc, k, one), PutAt(doc, k, two), source);
      } else {
        IndexOfKey(number, doc, source[0], path[0]);
        SameKeysSameFind(doc, PutAt(doc, k, one), source[0], 0);
        SameKeysSameFind(doc, PutAt(doc, k, two), source[0], 0);
      }
    }
  }

  lemma StarReadsApart(number: string -> Option<nat>, node: Json, other: Json, source: seq<string>)
    requires source != [] && source[0] == STAR && Count(node) > 0 && Count(other) > 0
    requires SomeDiffers(FanOut(number, node, source[1..], 0), FanOut(number, other, source[1..], 0))
    ensures ReadApart(GetSegments(number, node, source), GetSegments(number, other, source))
  {
    var s, t := FanOut(number, node, source[1..], 0), FanOut(number, other, source[1..], 0);
    var i :| 0 <= i < |s| && DiffersInNumber(s[i], t[i]);
    assert DiffersInNumber(Arr(s), Arr(t));
  }

  /** A source that stops above a leaf reads an array or an object. */
  lemma {:induction false} StoppingAboveReadsContainer(number: string -> Option<nat>, doc: Json, source: seq<string>, path: seq<string>)
    requires ReadsIndices(number) && IsCanonical(number, source) && Reaches(doc, path)
    requires Covers(source, path) && |source| < |path|
    ensures GetSegments(number, doc, source).Some? && !IsScalar(GetSegments(number, doc, source).value)
    decreases |source|
  {
    if source != [] && source[0] != STAR {
      CoversStep(source, path);
      IndexOfKey(number, doc, source[0], path[0]);
      StoppingAboveReadsContainer(number, Child(doc, path[0]), source[1..], path[1..]);
    }
  }

  // ---- what transforms make of them ----

  /**
   Hashes are distinct, and of a form that trimming and lower-casing leave alone; texts of values are distinct. A
   digest without collisions cannot have a fixed length, so 64 digits are a lower bound here.
   */
  ghost predicate HashesWell(lib: Library) {
    && (forall s :: |lib.hmac(s)| >= Denylist.HASH_CHARS && Denylist.AllWord(lib.hmac(s)))
    && (forall s :: lib.trim(HashText(lib, s)) == HashText(lib, s) && lib.lower(HashText(lib, s)) == HashText(lib, s))
    && (forall s, t | lib.hmac(s) == lib.hmac(t) :: s == t)
    && (forall v, w | lib.stringify(v) == lib.stringify(w) :: v == w)
  }

  function HashText(lib: Library, s: string): string {
    Denylist.HASH_PREFIX + lib.hmac(s)
  }

  /** The text is a hash. */
  ghost predicate IsHash(lib: Library, v: Json) {
    v.Str? && exists s :: v.s == HashText(lib, s)
  }

  /** Two values that masking keeps apart: they differ in a number, or they are two hashes. */
  ghost predicate Apart(lib: Library, v: Json, w: Json) {
    DiffersInNumber(v, w) || (IsHash(lib, v) && IsHash(lib, w) && v != w)
  }

  lemma HashTextsDiffer(lib: Library, s: string, t: string)
    requires HashesWell(lib) && s != t
    ensures HashText(lib, s) != HashText(lib, t)
  {
    var n := |Denylist.HASH_PREFIX|;
    assert HashText(lib, s)[n..] == lib.hmac(s) && HashText(lib, t)[n..] == lib.hmac(t);
  }

  function HashInput(lib: Library, v: Json): string {
    if v.Str? then v.s else lib.stringify(v)
  }

  lemma HashesApart(lib: Library, v: Json, w: Json)
    requires HashesWell(lib) && Apart(lib, v, w)
    ensures Apart(lib, ApplyTransform(lib, Hash, v), ApplyTransform(lib, Hash, w))
    ensures IsHash(lib, ApplyTransform(lib, Hash, v)) && IsHash(lib, ApplyTransform(lib, Hash, w))
  {
    if DiffersInNumber(v, w) {
      DifferentNumbersDiffer(v, w);
    }
    assert HashInput(lib, v) != HashInput(lib, w);
    HashTextsDiffer(lib, HashInput(lib, v), HashInput(lib, w));
    assert ApplyTransform(lib, Hash, v) == Str(HashText(lib, HashInput(lib, v)));
    assert ApplyTransform(lib, Hash, w) == Str(HashText(lib, HashInput(lib, w)));
  }

  lemma {:induction false} ApplyToItemsAt(lib: Library, t: Transform, items: seq<Json>, i: nat)
    ensures |ApplyToItems(lib, t, items)| == |items|
    ensures i < |items| ==> ApplyToItems(lib, t, items)[i] == ApplyTransform(lib, t, items[i])
    decreases |items|
  {
    if items != [] {
      ApplyToItemsAt(lib, t, items[1..], if i == 0 then 0 else i - 1);
    }
  }

  lemma {:induction false} TransformsKeepNumbersApart(lib: Library, t: Transform, v: Json, w: Json)
    requires t != Hash && DiffersInNumber(v, w)
    ensures DiffersInNumber(ApplyTransform(lib, t, v), ApplyTransform(lib, t, w))
  {
    if v.Arr? {
      var i :| 0 <= i < |v.items| && DiffersInNumber(v.items[i], w.items[i]);
      ApplyToItemsAt(lib, t, v.items, i);
      ApplyToItemsAt(lib, t, w.items, i);
      TransformsKeepNumbersApart(lib, t, v.items[i], w.items[i]);
      assert DiffersInNumber(ApplyTransform(lib, t, v).items[i], ApplyTransform(lib, t, w).items[i]);
    }
  }

  lemma {:induction false} TransformKeepsApart(lib: Library, t: Transform, v: Json, w: Json)
    requires HashesWell(lib) && Apart(lib, v, w)
    ensures Apart(lib, ApplyTransform(lib, t, v), ApplyTransform(lib, t, w))
  {
    if t == Hash {
      HashesApart(lib, v, w);
    } else if DiffersInNumber(v, w) {
      TransformsKeepNumbersApart(lib, t, v, w);
    } else {
      HashStays(lib, t, v);
      HashStays(lib, t, w);
    }
  }

  lemma HashStays(lib: Library, t: Transform, v: Json)
    requires HashesWell(lib) && IsHash(lib, v) && t != Hash
    ensures ApplyTransform(lib, t, v) == v
  {
    var s :| v.s == HashText(lib, s);
  }

  lemma {:induction false} ApplyAllKeepsApart(lib: Library, ts: seq<Transform>, v: Json, w: Json)
    requires HashesWell(lib) && Apart(lib, v, w)
    ensures Apart(lib, ApplyAll(lib, ts, v), ApplyAll(lib, ts, w))
  {
    if ts != [] {
      var last := |ts| - 1;
      ApplyAllKeepsApart(lib, ts[..last], v, w);
      TransformKeepsApart(lib, ts[last], ApplyAll(lib, ts[..last], v), ApplyAll(lib, ts[..last], w));
    }
  }

  /** Once hashed, always a hash: whatever transforms come before or after. */
  lemma {:induction false} HashedStaysHash(lib: Library, ts: seq<Transform>, v: Json)
    requires HashesWell(lib) && Hash in ts
    ensures IsHash(lib, ApplyAll(lib, ts, v))
  {
    var last := |ts| - 1;
    var before := ApplyAll(lib, ts[..last], v);
    if ts[last] == Hash {
      assert ApplyTransform(lib, Hash, before) == Str(HashText(lib, HashInput(lib, before)));
    } else {
      assert ts == ts[..last] + [ts[last]];
      HashedStaysHash(lib, ts[..last], v);
      HashStays(lib, ts[last], before);
    }
  }

  /** Without a hash, an array stays an array and an object an object. */
  lemma {:induction false} ContainerStays(lib: Library, ts: seq<Transform>, v: Json)
    requires Hash !in ts && !IsScalar(v)
    ensures !IsScalar(ApplyAll(lib, ts, v))
  {
    if ts != [] {
      var last := |ts| - 1;
      assert ts[last] in ts;
      ContainerStays(lib, ts[..last], v);
    }
  }

  // ---- what masking makes of them ----

  /** A hashed value leaves the masking as it entered, wherever in the transforms the hash stands. */
  lemma HashedFieldIsForwarded(lib: Library, ref: FieldRef, value: Json)
    requires HashesWell(lib) && Hash in ref.transforms
    ensures IsHash(lib, ApplyAll(lib, ref.transforms, value))
    ensures Denylist.HardDenyDeep(ApplyAll(lib, ref.transforms, value)) == ApplyAll(lib, ref.transforms, value)
  {
    HashedStaysHash(lib, ref.transforms, value);
    MaskKeepsHash(lib, ApplyAll(lib, ref.transforms, value));
  }

  lemma MaskKeepsHash(lib: Library, v: Json)
    requires HashesWell(lib) && IsHash(lib, v)
    ensures Denylist.HardDenyDeep(v) == v
  {
    var s :| v.s == HashText(lib, s);
    Denylist.HashesSurvive(lib.hmac(s));
  }

  lemma {:induction false} MaskKeepsNumbersApart(v: Json, w: Json)
    requires DiffersInNumber(v, w)
    ensures DiffersInNumber(Denylist.HardDenyDeep(v), Denylist.HardDenyDeep(w))
  {
    match v
    case Arr(items) =>
      var i :| 0 <= i < |items| && DiffersInNumber(items[i], w.items[i]);
      Denylist.DenyItemsAt(items, i);
      Denylist.DenyItemsAt(w.items, i);
      MaskKeepsNumbersApart(items[i], w.items[i]);
      assert DiffersInNumber(Denylist.HardDenyDeep(v).items[i], Denylist.HardDenyDeep(w).items[i]);
    case Obj(fields) =>
      var i :| 0 <= i < |fields| && DiffersInNumber(fields[i].value, w.fields[i].value);
      Denylist.DenyFieldsAt(fields, i);
      Denylist.DenyFieldsAt(w.fields, i);
      MaskKeepsNumbersApart(fields[i].value, w.fields[i].value);
      assert DiffersInNumber(Denylist.HardDenyDeep(v).fields[i].value, Denylist.HardDenyDeep(w).fields[i].value);
    case _ =>
  }

  lemma MaskedApartDiffer(lib: Library, v: Json, w: Json)
    requires HashesWell(lib) && Apart(lib, v, w)
    ensures v != w && Denylist.HardDenyDeep(v) != Denylist.HardDenyDeep(w)
  {
    if DiffersInNumber(v, w) {
      DifferentNumbersDiffer(v, w);
      MaskKeepsNumbersApart(v, w);
      DifferentNumbersDiffer(Denylist.HardDenyDeep(v), Denylist.HardDenyDeep(w));
    } else {
      MaskKeepsHash(lib, v);
      MaskKeepsHash(lib, w);
    }
  }

  // ---- the outcome ----

  function Outcome(lib: Library, m: RecordMap, payload: Json, receivedAt: string): Result<MappedEvent, MappingError> {
    MappedFrom(lib, m, InputsOf(lib, m, payload, receivedAt))
  }

  /** The field forwards what it reads, be it an array or an object: to the record, or to an enrichment. */
  predicate Carries(m: RecordMap, ref: FieldRef) {
    || ref == m.externalId
    || ref in m.metadata
    || (m.description == Some(ref) && (ref.enrichment.Some? || Hash in ref.transforms))
  }

  predicate IsAbove(ref: FieldRef, path: seq<string>) {
    Covers(Split(ref.source), path) && |Split(ref.source)| < |path|
  }

  /** A field that forwards what it reads stops above the leaf. */
  predicate CarriedFromAbove(m: RecordMap, path: seq<string>) {
    exists k | 0 <= k < |Refs(m)| :: Carries(m, Refs(m)[k]) && IsAbove(Refs(m)[k], path)
  }

  /** Every output field is configured once. */
  predicate DistinctNames(m: RecordMap) {
    forall i, j | 0 <= i < j < |Refs(m)| :: Refs(m)[i].name != Refs(m)[j].name
  }

  /** Only a string parses as a date. */
  ghost predicate DatesAreTexts(lib: Library) {
    forall v, format | lib.parseDate(v, format).Some? :: v.Str?
  }

  /** The mapping succeeds and lists the scalar at `path` as not forwarded. */
  ghost predicate ListedAsLocal(lib: Library, m: RecordMap, payload: Json, receivedAt: string, path: seq<string>) {
    && ReadsIndices(lib.number) && CanonicalMap(lib, m) && Plain(payload)
    && path != [] && IsLeafPath(payload, path) && IsScalar(At(payload, path))
    && Outcome(lib, m, payload, receivedAt).Ok? && Join(path) in Outcome(lib, m, payload, receivedAt).value.notForwarded
  }

  /** Whatever scalar stands at `path`, the outcome is the same. */
  ghost predicate IsIrrelevant(lib: Library, m: RecordMap, payload: Json, receivedAt: string, path: seq<string>)
    requires Reaches(payload, path)
  {
    forall v | IsScalar(v) :: Outcome(lib, m, Put(payload, path, v), receivedAt) == Outcome(lib, m, payload, receivedAt)
  }

  /** A configured source that is not above a listed leaf reads the same when the leaf changes. */
  lemma NotAboveReadsSame(lib: Library, m: RecordMap, payload: Json, receivedAt: string, path: seq<string>, v: Json, ref: FieldRef)
    requires ListedAsLocal(lib, m, payload, receivedAt, path) && Names(m, ref.source) && IsScalar(v) && !IsAbove(ref, path)
    ensures Read(lib, Put(payload, path, v), ref.source) == Read(lib, payload, ref.source)
  {
    PutChanges(payload, path, v);
    if v != At(payload, path) {
      var used := FullTrail(m, InputsOf(lib, m, payload, receivedAt)).used;
      NotForwardedAre(used, LeafPaths(payload, ""), Join(path));
      LocalLeafIsNotRead(lib, m, payload, receivedAt, path, ref.source);
      SeenIffCovered(lib.number, payload, path, v, Split(ref.source));
    }
  }

  lemma StripKeepsHead(s: string)
    requires s != "" && !Cents.IsNoise(s[0])
    ensures Cents.Strip(s) != "" && Cents.Strip(s)[0] == s[0]
  {
  }

  lemma LetterIsNoAmount(text: string)
    requires text != "" && text[0] != '-' && text[0] != '.' && !Digits.IsDigit(text[0])
    ensures !Cents.IsAmountText(text)
  {
    assert Cents.Unsigned(text) == text;
    var whole := text[..Cents.DotAt(text)];
    assert whole != "" ==> whole[0] == text[0];
  }

  /** A hash is no amount. */
  lemma HashIsNoAmount(lib: Library, v: Json)
    requires IsHash(lib, v)
    ensures Cents.ToCents(lib.fl, v).Err?
  {
    assert v.s != "" && v.s[0] == 'h';
    StripKeepsHead(v.s);
    LetterIsNoAmount(Cents.Strip(v.s));
  }

  lemma ContainerIsNoAmount(lib: Library, ts: seq<Transform>, v: Json)
    requires HashesWell(lib) && !IsScalar(v)
    ensures Cents.ToCents(lib.fl, ApplyAll(lib, ts, v)).Err?
  {
    if Hash in ts {
      HashedStaysHash(lib, ts, v);
      HashIsNoAmount(lib, ApplyAll(lib, ts, v));
    } else {
      ContainerStays(lib, ts, v);
    }
  }

  /** When the mapping succeeds, neither the amount nor the date was read from above a leaf. */
  lemma AmountAndDateAreTexts(lib: Library, m: RecordMap, payload: Json, receivedAt: string, path: seq<string>)
    requires ReadsIndices(lib.number) && CanonicalMap(lib, m) && HashesWell(lib) && DatesAreTexts(lib)
    requires Reaches(payload, path) && Outcome(lib, m, payload, receivedAt).Ok?
    ensures !IsAbove(m.amount, path)
    ensures m.date.Some? ==> !(Covers(Split(m.date.value.source), path) && |Split(m.date.value.source)| < |path|)
  {
    NamesRefs(m);
    if IsAbove(m.amount, path) {
      StoppingAboveReadsContainer(lib.number, payload, Split(m.amount.source), path);
      ContainerIsNoAmount(lib, m.amount.transforms, Read(lib, payload, m.amount.source).value);
    }
    if m.date.Some? && Covers(Split(m.date.value.source), path) && |Split(m.date.value.source)| < |path| {
      StoppingAboveReadsContainer(lib.number, payload, Split(m.date.value.source), path);
    }
  }

  // ---- without such a field the leaf is irrelevant ----

  /** A description that is no text is neither forwarded nor noted differently. */
  lemma DescriptionDropped(lib: Library, m: RecordMap, i: Inputs, d: Option<Json>)
    requires |i.metadata| == |m.metadata| && m.description.Some? && m.description.value.enrichment.None?
    requires i.description.Some? && !IsScalar(i.description.value) && d.Some? && !IsScalar(d.value)
    ensures MappedFrom(lib, m, i.(description := d)) == MappedFrom(lib, m, i)
  {
    assert FullTrail(m, i.(description := d)) == FullTrail(m, i);
  }

  lemma MetadataIsNotAbove(m: RecordMap, path: seq<string>, k: nat)
    requires !CarriedFromAbove(m, path) && k < |m.metadata|
    ensures !IsAbove(m.metadata[k], path) && Names(m, m.metadata[k].source)
  {
    NamesRefs(m);
    assert Refs(m)[k + 2] == m.metadata[k] && Carries(m, Refs(m)[k + 2]);
  }

  lemma MetadataReadsSame(lib: Library, m: RecordMap, payload: Json, receivedAt: string, path: seq<string>, v: Json)
    requires ListedAsLocal(lib, m, payload, receivedAt, path) && IsScalar(v) && !CarriedFromAbove(m, path)
    ensures ResolvedAll(lib, Put(payload, path, v), m.metadata) == ResolvedAll(lib, payload, m.metadata)
  {
    forall k | 0 <= k < |m.metadata|
      ensures Read(lib, Put(payload, path, v), m.metadata[k].source) == Read(lib, payload, m.metadata[k].source)
    {
      MetadataIsNotAbove(m, path, k);
      NotAboveReadsSame(lib, m, payload, receivedAt, path, v, m.metadata[k]);
    }
    ResolvedAlike(lib, payload, Put(payload, path, v), m.metadata);
  }

  lemma OthersReadSame(lib: Library, m: RecordMap, payload: Json, receivedAt: string, path: seq<string>, v: Json)
    requires ListedAsLocal(lib, m, payload, receivedAt, path) && HashesWell(lib) && DatesAreTexts(lib)
    requires IsScalar(v) && !CarriedFromAbove(m, path)
    ensures Read(lib, Put(payload, path, v), m.externalId.source) == Read(lib, payload, m.externalId.source)
    ensures Read(lib, Put(payload, path, v), m.amount.source) == Read(lib, payload, m.amount.source)
    ensures DateOf(lib, m.date, Put(payload, path, v), receivedAt) == DateOf(lib, m.date, payload, receivedAt)
  {
    NamesRefs(m);
    assert Refs(m)[0] == m.externalId;
    AmountAndDateAreTexts(lib, m, payload, receivedAt, path);
    NotAboveReadsSame(lib, m, payload, receivedAt, path, v, m.externalId);
    NotAboveReadsSame(lib, m, payload, receivedAt, path, v, m.amount);
    if m.date.Some? {
      NotAboveReadsSame(lib, m, payload, receivedAt, path, v, FieldRef("date", m.date.value.source, [], None));
    }
  }

  lemma InputsButDescription(lib: Library, m: RecordMap, payload: Json, receivedAt: string, path: seq<string>, v: Json)
    requires ListedAsLocal(lib, m, payload, receivedAt, path) && HashesWell(lib) && DatesAreTexts(lib)
    requires IsScalar(v) && !CarriedFromAbove(m, path)
    ensures var i, j := InputsOf(lib, m, payload, receivedAt), InputsOf(lib, m, Put(payload, path, v), receivedAt);
            j == i.(description := j.description)
  {
    PutKeepsLeaves(payload, path, v, "");
    OthersReadSame(lib, m, payload, receivedAt, path, v);
    MetadataReadsSame(lib, m, payload, receivedAt, path, v);
  }

  lemma DescriptionReadsSame(lib: Library, m: RecordMap, payload: Json, receivedAt: string, path: seq<string>, v: Json)
    requires ListedAsLocal(lib, m, payload, receivedAt, path) && HashesWell(lib) && DatesAreTexts(lib)
    requires IsScalar(v) && !CarriedFromAbove(m, path)
    requires m.description.Some? ==> !IsAbove(m.description.value, path)
    ensures InputsOf(lib, m, Put(payload, path, v), receivedAt).description == InputsOf(lib, m, payload, receivedAt).description
  {
    if m.description.Some? {
      NamesRefs(m);
      NotAboveReadsSame(lib, m, payload, receivedAt, path, v, m.description.value);
    }
  }

  lemma NotCarriedIsIrrelevant(lib: Library, m: RecordMap, payload: Json, receivedAt: string, path: seq<string>, v: Json)
    requires ListedAsLocal(lib, m, payload, receivedAt, path) && HashesWell(lib) && DatesAreTexts(lib)
    requires IsScalar(v) && !CarriedFromAbove(m, path)
    ensures Outcome(lib, m, Put(payload, path, v), receivedAt) == Outcome(lib, m, payload, receivedAt)
  {
    var other := Put(payload, path, v);
    InputsButDescription(lib, m, payload, receivedAt, path, v);
    if m.description.Some? && IsAbove(m.description.value, path) {
      var ref := m.description.value;
      assert Refs(m)[|Refs(m)| - 1] == ref;
      NamesRefs(m);
      StoppingAboveReadsContainer(lib.number, payload, Split(ref.source), path);
      ReachesPut(payload, path, v);
      StoppingAboveReadsContainer(lib.number, other, Split(ref.source), path);
      ContainerStays(lib, ref.transforms, Read(lib, payload, ref.source).value);
      ContainerStays(lib, ref.transforms, Read(lib, other, ref.source).value);
      DescriptionDropped(lib, m, InputsOf(lib, m, payload, receivedAt), InputsOf(lib, m, other, receivedAt).description);
    } else {
      DescriptionReadsSame(lib, m, payload, receivedAt, path, v);
    }
  }

  // ---- with such a field it is not ----

  /** The value of the `k`-th configured field. */
  function RefValue(m: RecordMap, i: Inputs, k: nat): Option<Json>
    requires |i.metadata| == |m.metadata| && k < |Refs(m)|
  {
    if k == 0 then i.externalId else if k == 1 then i.amount
    else if k < 2 + |m.metadata| then i.metadata[k - 2] else i.description
  }

  lemma RefsAt(m: RecordMap, k: nat)
    requires k < |Refs(m)|
    ensures |Refs(m)| == 2 + |m.metadata| + if m.description.Some? then 1 else 0
    ensures Refs(m)[k] == if k == 0 then m.externalId else if k == 1 then m.amount
                          else if k < 2 + |m.metadata| then m.metadata[k - 2] else m.description.value
  {
  }

  lemma RefResolved(lib: Library, m: RecordMap, payload: Json, receivedAt: string, k: nat)
    requires k < |Refs(m)|
    ensures RefValue(m, InputsOf(lib, m, payload, receivedAt), k) == Resolved(lib, payload, Refs(m)[k])
  {
    RefsAt(m, k);
    if 2 <= k < 2 + |m.metadata| {
      ResolvedAllAt(lib, payload, m.metadata, k - 2);
    }
  }

  predicate IsPendingOf(v: Option<Json>, ref: FieldRef, p: Pending) {
    v.Some? && ref.enrichment.Some? && p == Pending(ref.name, ref.enrichment.value, v.value, ref.source)
  }

  lemma NotePending(v: Option<Json>, ref: FieldRef, t: Trail, p: Pending)
    ensures p in Note(v, ref, t).pending <==> p in t.pending || IsPendingOf(v, ref, p)
  {
  }

  lemma {:induction false} NoteAllPending(values: seq<Option<Json>>, refs: seq<FieldRef>, t: Trail, p: Pending)
    requires |values| == |refs|
    ensures p in NoteAll(values, refs, t).pending <==>
            p in t.pending || exists k | 0 <= k < |refs| :: IsPendingOf(values[k], refs[k], p)
  {
    if refs != [] {
      var last := |refs| - 1;
      NoteAllPending(values[..last], refs[..last], t, p);
      NotePending(values[last], refs[last], NoteAll(values[..last], refs[..last], t), p);
      assert forall k | 0 <= k < last :: refs[..last][k] == refs[k] && values[..last][k] == values[k];
    }
  }

  /** The enrichments that wait are those of the enriched fields that read something, each with its input. */
  lemma PendingAre(m: RecordMap, i: Inputs, p: Pending)
    requires |i.metadata| == |m.metadata|
    ensures p in FullTrail(m, i).pending <==> exists k | 0 <= k < |Refs(m)| :: IsPendingOf(RefValue(m, i, k), Refs(m)[k], p)
  {
    NotePending(i.externalId, m.externalId, NOTHING, p);
    NotePending(i.amount, m.amount, Note(i.externalId, m.externalId, NOTHING), p);
    NoteAllPending(i.metadata, m.metadata, HeadTrail(m, i), p);
    if m.description.Some? {
      NotePending(i.description, m.description.value, NoteAll(i.metadata, m.metadata, HeadTrail(m, i)), p);
    }
    forall k | 0 <= k < |Refs(m)|
      ensures IsPendingOf(RefValue(m, i, k), Refs(m)[k], p) ==> p in FullTrail(m, i).pending
    {
      RefsAt(m, k);
    }
    PendingIsOf(m, i, p);
  }

  lemma PendingIsOf(m: RecordMap, i: Inputs, p: Pending)
    requires |i.metadata| == |m.metadata|
    ensures p in FullTrail(m, i).pending ==> exists k | 0 <= k < |Refs(m)| :: IsPendingOf(RefValue(m, i, k), Refs(m)[k], p)
  {
    var n := 2 + |m.metadata|;
    NotePending(i.externalId, m.externalId, NOTHING, p);
    NotePending(i.amount, m.amount, Note(i.externalId, m.externalId, NOTHING), p);
    NoteAllPending(i.metadata, m.metadata, HeadTrail(m, i), p);
    RefsAt(m, 0);
    RefsAt(m, 1);
    if m.description.Some? {
      NotePending(i.description, m.description.value, NoteAll(i.metadata, m.metadata, HeadTrail(m, i)), p);
      RefsAt(m, n);
    }
    if k :| 0 <= k < |m.metadata| && IsPendingOf(i.metadata[k], m.metadata[k], p) {
      RefsAt(m, k + 2);
      assert IsPendingOf(RefValue(m, i, k + 2), Refs(m)[k + 2], p);
    }
    assert IsPendingOf(i.externalId, m.externalId, p) ==> IsPendingOf(RefValue(m, i, 0), Refs(m)[0], p);
    assert IsPendingOf(i.amount, m.amount, p) ==> IsPendingOf(RefValue(m, i, 1), Refs(m)[1], p);
  }

  lemma {:induction false} MetadataAt(values: seq<Option<Json>>, refs: seq<FieldRef>, n: nat)
    requires |values| == |refs| && n < |refs| && Forwarded(values[n], refs[n]).Some?
    requires forall i, j | 0 <= i < j < |refs| :: refs[i].name != refs[j].name
    ensures refs[n].name in Metadata(values, refs)
    ensures Metadata(values, refs)[refs[n].name] == Denylist.HardDenyDeep(values[n].value)
  {
    var last := |refs| - 1;
    if n < last {
      MetadataAt(values[..last], refs[..last], n);
    }
  }

  /** Two sets of inputs that differ apart in one carrying field do not map alike. */
  lemma ApartFieldsMapApart(lib: Library, m: RecordMap, i: Inputs, j: Inputs, k: nat)
    requires HashesWell(lib) && DistinctNames(m) && |i.metadata| == |j.metadata| == |m.metadata| && k < |Refs(m)|
    requires RefValue(m, i, k).Some? && RefValue(m, j, k).Some? && Apart(lib, RefValue(m, i, k).value, RefValue(m, j, k).value)
    requires Carries(m, Refs(m)[k])
    requires Hash in Refs(m)[k].transforms ==> IsHash(lib, RefValue(m, i, k).value) && IsHash(lib, RefValue(m, j, k).value)
    ensures !(MappedFrom(lib, m, i).Ok? && MappedFrom(lib, m, j) == MappedFrom(lib, m, i))
  {
    var ref, x, y := Refs(m)[k], RefValue(m, i, k).value, RefValue(m, j, k).value;
    MaskedApartDiffer(lib, x, y);
    if MappedFrom(lib, m, i).Ok? && MappedFrom(lib, m, j).Ok? {
      if ref.enrichment.Some? {
        PendingApart(m, i, j, k);
      } else {
        ForwardedApart(lib, m, i, j, k);
      }
    }
  }

  lemma PendingApart(m: RecordMap, i: Inputs, j: Inputs, k: nat)
    requires DistinctNames(m) && |i.metadata| == |j.metadata| == |m.metadata| && k < |Refs(m)|
    requires RefValue(m, i, k).Some? && RefValue(m, j, k).Some? && RefValue(m, i, k) != RefValue(m, j, k)
    requires Refs(m)[k].enrichment.Some?
    ensures FullTrail(m, i).pending != FullTrail(m, j).pending
  {
    var ref := Refs(m)[k];
    var p := Pending(ref.name, ref.enrichment.value, RefValue(m, i, k).value, ref.source);
    PendingAre(m, i, p);
    PendingAre(m, j, p);
    assert IsPendingOf(RefValue(m, i, k), ref, p);
    forall n | 0 <= n < |Refs(m)| ensures !IsPendingOf(RefValue(m, j, n), Refs(m)[n], p) {
      assert n != k ==> Refs(m)[n].name != ref.name;
    }
  }

  lemma MetadataApart(lib: Library, refs: seq<FieldRef>, values: seq<Option<Json>>, others: seq<Option<Json>>, n: nat)
    requires HashesWell(lib) && |values| == |others| == |refs| && n < |refs| && refs[n].enrichment.None?
    requires forall i, j | 0 <= i < j < |refs| :: refs[i].name != refs[j].name
    requires values[n].Some? && others[n].Some? && Apart(lib, values[n].value, others[n].value)
    ensures Metadata(values, refs) != Metadata(others, refs)
  {
    MaskedApartDiffer(lib, values[n].value, others[n].value);
    MetadataAt(values, refs, n);
    MetadataAt(others, refs, n);
  }

  lemma DescriptionsApart(lib: Library, ref: FieldRef, x: Json, y: Json)
    requires HashesWell(lib) && ref.enrichment.None? && IsHash(lib, x) && IsHash(lib, y) && x != y
    ensures Description(Some(x), Some(ref)) != Description(Some(y), Some(ref))
  {
    MaskKeepsHash(lib, x);
    MaskKeepsHash(lib, y);
  }

  lemma ForwardedApart(lib: Library, m: RecordMap, i: Inputs, j: Inputs, k: nat)
    requires HashesWell(lib) && DistinctNames(m) && |i.metadata| == |j.metadata| == |m.metadata| && k < |Refs(m)|
    requires RefValue(m, i, k).Some? && RefValue(m, j, k).Some? && Apart(lib, RefValue(m, i, k).value, RefValue(m, j, k).value)
    requires Carries(m, Refs(m)[k]) && Refs(m)[k].enrichment.None?
    requires Hash in Refs(m)[k].transforms ==> IsHash(lib, RefValue(m, i, k).value) && IsHash(lib, RefValue(m, j, k).value)
    requires MappedFrom(lib, m, i).Ok? && MappedFrom(lib, m, j).Ok?
    ensures MappedFrom(lib, m, i).value.record != MappedFrom(lib, m, j).value.record
  {
    var ref, x, y := Refs(m)[k], RefValue(m, i, k).value, RefValue(m, j, k).value;
    RefsAt(m, k);
    MaskedApartDiffer(lib, x, y);
    var n := CarriedAt(m, k);
    if n == 0 {
      IdsApart(lib, x, y);
    } else if n < 2 + |m.metadata| {
      MetadataNamesDiffer(m);
      MetadataApart(lib, m.metadata, i.metadata, j.metadata, n - 2);
    } else {
      DescriptionsApart(lib, ref, x, y);
    }
  }

  lemma IdsApart(lib: Library, x: Json, y: Json)
    requires Apart(lib, x, y)
    ensures IdText(Some(x)).None? || IdText(Some(x)) != IdText(Some(y))
  {
  }

  /** A carrying field is the external id, a metadata field, or a hashed or enriched description. */
  lemma CarriedAt(m: RecordMap, k: nat) returns (n: nat)
    requires DistinctNames(m) && k < |Refs(m)| && Carries(m, Refs(m)[k])
    ensures n == k && k != 1
    ensures k >= 2 + |m.metadata| ==> Refs(m)[k].enrichment.Some? || Hash in Refs(m)[k].transforms
  {
    n := k;
    RefsAt(m, k);
    RefsAt(m, 0);
    var ref := Refs(m)[k];
    if ref in m.metadata {
      var i :| 0 <= i < |m.metadata| && m.metadata[i] == ref;
      RefsAt(m, i + 2);
      assert i + 2 == k;
    } else if m.description == Some(ref) {
      RefsAt(m, 2 + |m.metadata|);
    }
  }

  lemma MetadataNamesDiffer(m: RecordMap)
    requires DistinctNames(m)
    ensures forall i, j | 0 <= i < j < |m.metadata| :: m.metadata[i].name != m.metadata[j].name
  {
    forall i, j | 0 <= i < j < |m.metadata| ensures m.metadata[i].name != m.metadata[j].name {
      RefsAt(m, i + 2);
      RefsAt(m, j + 2);
    }
  }

  lemma CarriedIsRelevant(lib: Library, m: RecordMap, payload: Json, receivedAt: string, path: seq<string>, a: string, b: string)
    requires ListedAsLocal(lib, m, payload, receivedAt, path) && HashesWell(lib) && DistinctNames(m) && a != b
    requires CarriedFromAbove(m, path)
    ensures var one, two := Outcome(lib, m, Put(payload, path, Num(a)), receivedAt), Outcome(lib, m, Put(payload, path, Num(b)), receivedAt);
            !(one.Ok? && two == one)
  {
    var k :| 0 <= k < |Refs(m)| && Carries(m, Refs(m)[k]) && IsAbove(Refs(m)[k], path);
    var ref := Refs(m)[k];
    var one, two := Put(payload, path, Num(a)), Put(payload, path, Num(b));
    RefResolved(lib, m, one, receivedAt, k);
    RefResolved(lib, m, two, receivedAt, k);
    assert Names(m, ref.source);
    CoveringReadsApart(lib.number, payload, path, a, b, Split(ref.source));
    ApplyAllKeepsApart(lib, ref.transforms, Read(lib, one, ref.source).value, Read(lib, two, ref.source).value);
    if Hash in ref.transforms {
      HashedStaysHash(lib, ref.transforms, Read(lib, one, ref.source).value);
      HashedStaysHash(lib, ref.transforms, Read(lib, two, ref.source).value);
    }
    ApartFieldsMapApart(lib, m, InputsOf(lib, m, one, receivedAt), InputsOf(lib, m, two, receivedAt), k);
  }

  /**
   A scalar that the report lists as not forwarded has no influence on the record, the pending enrichments, or
   whether the mapping succeeds, if and only if no field that forwards what it reads stops above it.
   */
  lemma ReportIsReliableIff(lib: Library, m: RecordMap, payload: Json, receivedAt: string, path: seq<string>)
    requires ListedAsLocal(lib, m, payload, receivedAt, path)
    requires HashesWell(lib) && DatesAreTexts(lib) && DistinctNames(m)
    ensures IsIrrelevant(lib, m, payload, receivedAt, path) <==> !CarriedFromAbove(m, path)
  {
    if CarriedFromAbove(m, path) {
      CarriedIsRelevant(lib, m, payload, receivedAt, path, "0", "1");
      assert IsScalar(Num("0")) && IsScalar(Num("1"));
      var r, one, two := Outcome(lib, m, payload, receivedAt), Put(payload, path, Num("0")), Put(payload, path, Num("1"));
      assert IsIrrelevant(lib, m, payload, receivedAt, path) ==>
          Outcome(lib, m, one, receivedAt) == r && Outcome(lib, m, two, receivedAt) == r;
    } else {
      forall v | IsScalar(v) ensures Outcome(lib, m, Put(payload, path, v), receivedAt) == Outcome(lib, m, payload, receivedAt) {
        NotCarriedIsIrrelevant(lib, m, payload, receivedAt, path, v);
      }
    }
  }
}

/**
 Mapping a webhook payload to an End Close record. The map of a route is an allowlist: what is proved here
 is that the record depends on the payload through the configured sources only, and when the report of
 what stays local can be relied on.
 */
module Mapper {
  import opened Prelude
  import opened Json
  import opened Paths
  import Cents
  import Denylist

  datatype Transform = Trim | Lowercase | Hash

  datatype DateFormat = Iso8601 | MdyHms

  /** A field of the record and the source it is read from; only some fields may name an enrichment. */
  datatype FieldRef = FieldRef(name: string, source: string, transforms: seq<Transform>, enrichment: Option<string>)

  datatype DateRef = DateRef(source: string, format: DateFormat)

  datatype RecordMap = RecordMap(
    dataStreamKey: string,
    externalId: FieldRef,
    amount: FieldRef,
    debit: bool,
    date: Option<DateRef>,
    description: Option<FieldRef>,
    currency: Option<string>,
    metadata: seq<FieldRef>)

  datatype Record = Record(
    date: string,
    dataStreamKey: string,
    amount: int,
    currency: Option<string>,
    debit: bool,
    description: Option<string>,
    externalId: string,
    metadata: map<string, Json>)

  datatype Origin = Source(path: string) | Enriched(path: string, enrichment: string) | ReceiveTime

  datatype Pending = Pending(name: string, enrichment: string, input: Json, source: string)

  /** What mapping the fields so far has noted down. */
  datatype Trail = Trail(
    mapped: map<string, Origin>,
    hashed: seq<string>,
    enriched: seq<string>,
    pending: seq<Pending>,
    used: set<string>)

  datatype MappedEvent = MappedEvent(record: Record, trail: Trail, notForwarded: seq<string>)

  datatype MappingError = MissingExternalId(source: string) | BadAmount(error: Cents.AmountError) | BadDate

  /** The library calls the mapper relies on. `hmac` is keyed with the masking key and prints lower-case hex. */
  datatype Library = Library(
    number: string -> Option<nat>,
    fl: int -> int,
    hmac: string -> string,
    stringify: Json -> string,
    trim: string -> string,
    lower: string -> string,
    parseDate: (Json, DateFormat) -> Option<string>,
    dayOf: string -> string)

  // ---- transforms ----

  function HashValue(lib: Library, value: Json): string {
    Denylist.HASH_PREFIX + lib.hmac(if value.Str? then value.s else lib.stringify(value))
  }

  function ApplyTransform(lib: Library, t: Transform, value: Json): Json
    decreases value
  {
    match value
    case Str(s) =>
      (match t
       case Hash => Str(HashValue(lib, value))
       case Trim => Str(lib.trim(s))
       case Lowercase => Str(lib.lower(s)))
    case Arr(items) => if t == Hash then Str(HashValue(lib, value)) else Arr(ApplyToItems(lib, t, items))
    case _ => if t == Hash then Str(HashValue(lib, value)) else value
  }

  function ApplyToItems(lib: Library, t: Transform, items: seq<Json>): seq<Json>
    decreases items
  {
    if items == [] then [] else [ApplyTransform(lib, t, items[0])] + ApplyToItems(lib, t, items[1..])
  }

  function ApplyAll(lib: Library, transforms: seq<Transform>, value: Json): Json {
    if transforms == [] then value
    else
      var last := |transforms| - 1;
      ApplyTransform(lib, transforms[last], ApplyAll(lib, transforms[..last], value))
  }

  function Read(lib: Library, payload: Json, source: string): Option<Json> {
    GetAtPath(lib.number, payload, source)
  }

  /** The value of a field: what its source reads, transformed in the configured order. */
  function Resolved(lib: Library, payload: Json, ref: FieldRef): Option<Json> {
    var v := Read(lib, payload, ref.source);
    if v.None? then None else Some(ApplyAll(lib, ref.transforms, v.value))
  }

  method Resolve(lib: Library, payload: Json, ref: FieldRef) returns (r: Option<Json>)
    ensures r == Resolved(lib, payload, ref)
  {
    r := Read(lib, payload, ref.source);
    if r.None? {
      return;
    }
    var value := r.value;
    var i := 0;
    while i < |ref.transforms|
      invariant 0 <= i <= |ref.transforms|
      invariant value == ApplyAll(lib, ref.transforms[..i], r.value)
    {
      value := ApplyTransform(lib, ref.transforms[i], value);
      assert ref.transforms[..i + 1][..i] == ref.transforms[..i];
      i := i + 1;
    }
    assert ref.transforms[..i] == ref.transforms;
    r := Some(value);
  }

  // ---- what a mapped event is ----

  /** One field noted: an enriched field waits for the host, any other is read from its source. */
  function Note(v: Option<Json>, ref: FieldRef, t: Trail): Trail {
    if v.None? then t
    else if ref.enrichment.Some? then
      t.(mapped := t.mapped[ref.name := Enriched(ref.source, ref.enrichment.value)],
         enriched := t.enriched + [ref.name],
         pending := t.pending + [Pending(ref.name, ref.enrichment.value, v.value, ref.source)],
         used := t.used + {ref.source})
    else
      t.(mapped := t.mapped[ref.name := Source(ref.source)],
         hashed := if Hash in ref.transforms then t.hashed + [ref.name] else t.hashed,
         used := t.used + {ref.source})
  }

  function NoteAll(values: seq<Option<Json>>, refs: seq<FieldRef>, t: Trail): Trail
    requires |values| == |refs|
  {
    if refs == [] then t
    else
      var last := |refs| - 1;
      Note(values[last], refs[last], NoteAll(values[..last], refs[..last], t))
  }

  /** What is forwarded of a field's value, unless an enrichment takes it. */
  function Forwarded(v: Option<Json>, ref: FieldRef): Option<Json> {
    if ref.enrichment.Some? then None else v
  }

  function Metadata(values: seq<Option<Json>>, refs: seq<FieldRef>): map<string, Json>
    requires |values| == |refs|
  {
    if refs == [] then map[]
    else
      var last := |refs| - 1;
      WithField(Metadata(values[..last], refs[..last]), Forwarded(values[last], refs[last]), refs[last].name)
  }

  function WithField(metadata: map<string, Json>, v: Option<Json>, name: string): map<string, Json> {
    if v.None? then metadata else metadata[name := Denylist.HardDenyDeep(v.value)]
  }

  function Description(v: Option<Json>, ref: Option<FieldRef>): Option<string> {
    if ref.None? then None
    else
      var text := Forwarded(v, ref.value);
      if text.Some? && text.value.Str? then Some(Denylist.HardDenyValue(text.value.s)) else None
  }

  function OrNull(v: Option<Json>): Json {
    if v.Some? then v.value else Null
  }

  function DateOf(lib: Library, date: Option<DateRef>, payload: Json, receivedAt: string): Option<string> {
    if date.None? then Some(lib.dayOf(receivedAt))
    else lib.parseDate(OrNull(Read(lib, payload, date.value.source)), date.value.format)
  }

  function NoteDate(date: Option<DateRef>, t: Trail): Trail {
    if date.None? then t.(mapped := t.mapped["date" := ReceiveTime])
    else t.(mapped := t.mapped["date" := Source(date.value.source)], used := t.used + {date.value.source})
  }

  const NOTHING := Trail(map[], [], [], [], {})

  /** Everything mapping takes from a payload: the value of each configured field, and the leaf names. */
  datatype Inputs = Inputs(
    externalId: Option<Json>,
    amount: Option<Json>,
    date: Option<string>,
    metadata: seq<Option<Json>>,
    description: Option<Json>,
    leaves: seq<string>)

  function ResolvedAll(lib: Library, payload: Json, refs: seq<FieldRef>): (values: seq<Option<Json>>)
    ensures |values| == |refs|
  {
    if refs == [] then []
    else ResolvedAll(lib, payload, refs[..|refs| - 1]) + [Resolved(lib, payload, refs[|refs| - 1])]
  }

  function InputsOf(lib: Library, m: RecordMap, payload: Json, receivedAt: string): (i: Inputs)
    ensures |i.metadata| == |m.metadata|
  {
    Inputs(
      Resolved(lib, payload, m.externalId),
      Resolved(lib, payload, m.amount),
      DateOf(lib, m.date, payload, receivedAt),
      ResolvedAll(lib, payload, m.metadata),
      if m.description.Some? then Resolved(lib, payload, m.description.value) else None,
      LeafPaths(payload, ""))
  }

  function HeadTrail(m: RecordMap, i: Inputs): Trail {
    NoteDate(m.date, Note(i.amount, m.amount, Note(i.externalId, m.externalId, NOTHING)))
  }

  function FullTrail(m: RecordMap, i: Inputs): Trail
    requires |i.metadata| == |m.metadata|
  {
    var body := NoteAll(i.metadata, m.metadata, HeadTrail(m, i));
    if m.description.Some? then Note(i.description, m.description.value, body) else body
  }

  /** The wildcard pattern of a source: each star stands for one non-empty segment. */
  predicate StarMatch(source: string, leaf: string) {
    && '*' in source
    && |Split(source)| == |Split(leaf)|
    && forall i | 0 <= i < |Split(source)| ::
      if Split(source)[i] == STAR then Split(leaf)[i] != "" else Split(source)[i] == Split(leaf)[i]
  }

  predicate IsUsed(used: set<string>, leaf: string) {
    leaf in used || exists p | p in used :: StarMatch(p, leaf)
  }

  function NotForwarded(used: set<string>, leaves: seq<string>): seq<string> {
    if leaves == [] then []
    else (if IsUsed(used, leaves[0]) then [] else [leaves[0]]) + NotForwarded(used, leaves[1..])
  }

  function IdText(v: Option<Json>): Option<string> {
    if v.None? then None
    else
      match v.value
      case Str(s) => Some(s)
      case Num(repr) => Some(repr)
      case _ => None
  }

  function MappedFrom(lib: Library, m: RecordMap, i: Inputs): Result<MappedEvent, MappingError>
    requires |i.metadata| == |m.metadata|
  {
    var id := IdText(Forwarded(i.externalId, m.externalId));
    var amount := Cents.ToCents(lib.fl, OrNull(Forwarded(i.amount, m.amount)));
    if id.None? then Err(MissingExternalId(m.externalId.source))
    else if amount.Err? then Err(BadAmount(amount.error))
    else if i.date.None? then Err(BadDate)
    else
      var trail := FullTrail(m, i);
      Ok(MappedEvent(
        Record(
          i.date.value, m.dataStreamKey, amount.value, m.currency, m.debit,
          Description(i.description, m.description), id.value, Metadata(i.metadata, m.metadata)),
        trail,
        NotForwarded(trail.used, i.leaves)))
  }

  // ---- what the record says ----

  /** The field is what its source reads: neither transformed nor left to the host. */
  predicate IsPlain(ref: FieldRef) {
    ref.transforms == [] && ref.enrichment.None?
  }

  /** The decimal number in the text, in hundredths. */
  ghost predicate IsHundredthsOf(cents: int, text: string) {
    forall a: Cents.Amount | a.Valid() && a.Text() == text && Cents.Magnitude(a) <= Cents.MAX_EXACT :: cents as real == 100.0 * a.Value()
  }

  /** A text or number at the source, as cents. */
  ghost predicate IsAmountOf(lib: Library, cents: int, v: Option<Json>) {
    match v
    case Some(Str(s)) => Cents.IsAmountText(Cents.Strip(s)) && (Cents.IsDoubleRounding(lib.fl) ==> IsHundredthsOf(cents, Cents.Strip(s)))
    case Some(Num(repr)) => Cents.IsAmountText(repr) && (Cents.IsDoubleRounding(lib.fl) ==> IsHundredthsOf(cents, repr))
    case _ => false
  }

  /** A text or number at the source, as text. */
  predicate IsTextOf(text: string, v: Option<Json>) {
    match v
    case Some(Str(s)) => text == s
    case Some(Num(repr)) => text == repr
    case _ => false
  }

  /** The date is the day of receipt if no source is configured, and else what the text at the source parses to. */
  predicate IsDateOf(lib: Library, date: string, ref: Option<DateRef>, payload: Json, receivedAt: string) {
    match ref
    case None => date == lib.dayOf(receivedAt)
    case Some(DateRef(source, format)) =>
      var v := Read(lib, payload, source);
      lib.parseDate(if v.Some? then v.value else Null, format) == Some(date)
  }

  /** The record has the map's own constants, and its id, amount and date are what the payload has at their sources. */
  ghost predicate IsRecordOf(lib: Library, record: Record, m: RecordMap, payload: Json, receivedAt: string) {
    && record.debit == m.debit && record.dataStreamKey == m.dataStreamKey && record.currency == m.currency
    && IsDateOf(lib, record.date, m.date, payload, receivedAt)
    && (IsPlain(m.externalId) ==> IsTextOf(record.externalId, Read(lib, payload, m.externalId.source)))
    && (IsPlain(m.amount) ==> IsAmountOf(lib, record.amount, Read(lib, payload, m.amount.source)))
  }

  lemma PlainIsRead(lib: Library, payload: Json, ref: FieldRef)
    requires IsPlain(ref)
    ensures Forwarded(Resolved(lib, payload, ref), ref) == Read(lib, payload, ref.source)
  {
  }

  lemma HundredthsOf(fl: int -> int, text: string, cents: int)
    requires Cents.IsDoubleRounding(fl) && Cents.TextToCents(fl, text) == Ok(cents)
    ensures IsHundredthsOf(cents, text)
  {
    forall a: Cents.Amount | a.Valid() && a.Text() == text && Cents.Magnitude(a) <= Cents.MAX_EXACT
      ensures cents as real == 100.0 * a.Value()
    {
      Cents.CentsAreHundredths(fl, a);
    }
  }

  lemma AmountOf(lib: Library, v: Option<Json>)
    requires Cents.ToCents(lib.fl, OrNull(v)).Ok?
    ensures IsAmountOf(lib, Cents.ToCents(lib.fl, OrNull(v)).value, v)
  {
    var cents := Cents.ToCents(lib.fl, OrNull(v)).value;
    if Cents.IsDoubleRounding(lib.fl) {
      match v
      case Some(Str(s)) => HundredthsOf(lib.fl, Cents.Strip(s), cents);
      case Some(Num(repr)) => HundredthsOf(lib.fl, repr, cents);
      case _ =>
    }
  }

  lemma RecordIs(lib: Library, m: RecordMap, payload: Json, receivedAt: string)
    requires MappedFrom(lib, m, InputsOf(lib, m, payload, receivedAt)).Ok?
    ensures IsRecordOf(lib, MappedFrom(lib, m, InputsOf(lib, m, payload, receivedAt)).value.record, m, payload, receivedAt)
  {
    AmountOf(lib, Forwarded(Resolved(lib, payload, m.amount), m.amount));
    if IsPlain(m.externalId) {
      PlainIsRead(lib, payload, m.externalId);
    }
    if IsPlain(m.amount) {
      PlainIsRead(lib, payload, m.amount);
    }
  }

  // ---- mapEvent ----

  method Use(lib: Library, payload: Json, ref: FieldRef, t: Trail) returns (v: Option<Json>, now: Trail)
    ensures v == Forwarded(Resolved(lib, payload, ref), ref)
    ensures now == Note(Resolved(lib, payload, ref), ref, t)
  {
    v := Resolve(lib, payload, ref);
    now := t;
    if v.None? {
      return;
    }
    now := now.(used := now.used + {ref.source});
    if ref.enrichment.Some? {
      now := now.(mapped := now.mapped[ref.name := Enriched(ref.source, ref.enrichment.value)]);
      now := now.(enriched := now.enriched + [ref.name]);
      now := now.(pending := now.pending + [Pending(ref.name, ref.enrichment.value, v.value, ref.source)]);
      return None, now;
    }
    now := now.(mapped := now.mapped[ref.name := Source(ref.source)]);
    if Hash in ref.transforms {
      now := now.(hashed := now.hashed + [ref.name]);
    }
  }

  lemma NextField(lib: Library, payload: Json, refs: seq<FieldRef>, i: nat, head: Trail)
    requires i < |refs|
    ensures var values, v := ResolvedAll(lib, payload, refs[..i]), Resolved(lib, payload, refs[i]);
            && NoteAll(ResolvedAll(lib, payload, refs[..i + 1]), refs[..i + 1], head)
               == Note(v, refs[i], NoteAll(values, refs[..i], head))
            && Metadata(ResolvedAll(lib, payload, refs[..i + 1]), refs[..i + 1])
               == WithField(Metadata(values, refs[..i]), Forwarded(v, refs[i]), refs[i].name)
  {
    assert refs[..i + 1][..i] == refs[..i];
    var values := ResolvedAll(lib, payload, refs[..i + 1]);
    assert values[..i] == ResolvedAll(lib, payload, refs[..i]);
  }

  method MapMetadata(lib: Library, refs: seq<FieldRef>, payload: Json, head: Trail)
    returns (metadata: map<string, Json>, trail: Trail)
    ensures trail == NoteAll(ResolvedAll(lib, payload, refs), refs, head)
    ensures metadata == Metadata(ResolvedAll(lib, payload, refs), refs)
  {
    metadata, trail := map[], head;
    var i := 0;
    while i < |refs|
      invariant 0 <= i <= |refs|
      invariant trail == NoteAll(ResolvedAll(lib, payload, refs[..i]), refs[..i], head)
      invariant metadata == Metadata(ResolvedAll(lib, payload, refs[..i]), refs[..i])
    {
      NextField(lib, payload, refs, i, head);
      var value;
      value, trail := Use(lib, payload, refs[i], trail);
      if value.Some? {
        metadata := metadata[refs[i].name := Denylist.HardDenyDeep(value.value)];
      }
      i := i + 1;
    }
    assert refs[..i] == refs;
  }

  method MapDate(lib: Library, ref: Option<DateRef>, payload: Json, receivedAt: string, t: Trail)
    returns (date: Option<string>, now: Trail)
    ensures date == DateOf(lib, ref, payload, receivedAt)
    ensures now == if date.Some? then NoteDate(ref, t) else t
  {
    now := t;
    if ref.Some? {
      date := lib.parseDate(OrNull(Read(lib, payload, ref.value.source)), ref.value.format);
      if date.None? {
        return;
      }
      now := now.(mapped := now.mapped["date" := Source(ref.value.source)]);
      now := now.(used := now.used + {ref.value.source});
    } else {
      date := Some(lib.dayOf(receivedAt));
      now := now.(mapped := now.mapped["date" := ReceiveTime]);
    }
  }

  method MapEvent(lib: Library, m: RecordMap, payload: Json, receivedAt: string)
    returns (r: Result<MappedEvent, MappingError>)
    ensures r == MappedFrom(lib, m, InputsOf(lib, m, payload, receivedAt))
    ensures r.Ok? ==> IsRecordOf(lib, r.value.record, m, payload, receivedAt)
  {
    var trail := NOTHING;
    var externalId, amountText, date, metadata;
    externalId, trail := Use(lib, payload, m.externalId, trail);
    var id := IdText(externalId);
    if id.None? {
      return Err(MissingExternalId(m.externalId.source));
    }
    amountText, trail := Use(lib, payload, m.amount, trail);
    var amount := Cents.ToCents(lib.fl, OrNull(amountText));
    if amount.Err? {
      return Err(BadAmount(amount.error));
    }
    date, trail := MapDate(lib, m.date, payload, receivedAt, trail);
    if date.None? {
      return Err(BadDate);
    }
    metadata, trail := MapMetadata(lib, m.metadata, payload, trail);
    var record := Record(date.value, m.dataStreamKey, amount.value, m.currency, m.debit, None, id.value, metadata);
    if m.description.Some? {
      var text;
      text, trail := Use(lib, payload, m.description.value, trail);
      if text.Some? && text.value.Str? {
        record := record.(description := Some(Denylist.HardDenyValue(text.value.s)));
      }
    }
    r := Ok(MappedEvent(record, trail, NotForwarded(trail.used, LeafPaths(payload, ""))));
    RecordIs(lib, m, payload, receivedAt);
  }

  // ---- the allowlist ----

  /** Every source the map names. */
  function Refs(m: RecordMap): seq<FieldRef> {
    [m.externalId, m.amount] + m.metadata + if m.description.Some? then [m.description.value] else []
  }

  predicate Names(m: RecordMap, source: string) {
    (m.date.Some? && m.date.value.source == source) || exists i | 0 <= i < |Refs(m)| :: Refs(m)[i].source == source
  }

  ghost predicate ReadAlike(lib: Library, m: RecordMap, payload: Json, other: Json) {
    forall source | Names(m, source) :: Read(lib, other, source) == Read(lib, payload, source)
  }

  lemma {:induction false} ResolvedAlike(lib: Library, payload: Json, other: Json, refs: seq<FieldRef>)
    requires forall i | 0 <= i < |refs| :: Read(lib, other, refs[i].source) == Read(lib, payload, refs[i].source)
    ensures ResolvedAll(lib, other, refs) == ResolvedAll(lib, payload, refs)
  {
    if refs != [] {
      ResolvedAlike(lib, payload, other, refs[..|refs| - 1]);
    }
  }

  lemma NamesRefs(m: RecordMap)
    ensures Names(m, m.externalId.source) && Names(m, m.amount.source)
    ensures m.description.Some? ==> Names(m, m.description.value.source)
    ensures m.date.Some? ==> Names(m, m.date.value.source)
    ensures forall i | 0 <= i < |m.metadata| :: Names(m, m.metadata[i].source)
  {
    var refs := Refs(m);
    assert refs[0] == m.externalId && refs[1] == m.amount;
    assert m.description.Some? ==> refs[|refs| - 1] == m.description.value;
    forall i | 0 <= i < |m.metadata| ensures Names(m, m.metadata[i].source) {
      assert refs[i + 2] == m.metadata[i];
    }
  }

  /** Payloads that read alike at the configured sources and have the same leaves map alike. */
  lemma MapIsTheAllowlist(lib: Library, m: RecordMap, payload: Json, other: Json, receivedAt: string)
    requires ReadAlike(lib, m, payload, other) && LeafPaths(other, "") == LeafPaths(payload, "")
    ensures InputsOf(lib, m, other, receivedAt) == InputsOf(lib, m, payload, receivedAt)
  {
    NamesRefs(m);
    ResolvedAlike(lib, payload, other, m.metadata);
  }

  // ---- the report of what stays local ----

  lemma {:induction false} NotForwardedAre(used: set<string>, leaves: seq<string>, leaf: string)
    ensures leaf in NotForwarded(used, leaves) <==> leaf in leaves && !IsUsed(used, leaf)
  {
    if leaves != [] {
      NotForwardedAre(used, leaves[1..], leaf);
    }
  }

  predicate Uses(v: Option<Json>, ref: FieldRef, source: string) {
    v.Some? && ref.source == source
  }

  lemma NoteUses(v: Option<Json>, ref: FieldRef, t: Trail, source: string)
    ensures source in Note(v, ref, t).used <==> source in t.used || Uses(v, ref, source)
  {
  }

  lemma {:induction false} NoteAllUses(values: seq<Option<Json>>, refs: seq<FieldRef>, t: Trail, source: string)
    requires |values| == |refs|
    ensures source in NoteAll(values, refs, t).used <==>
            source in t.used || exists i | 0 <= i < |refs| :: Uses(values[i], refs[i], source)
  {
    if refs != [] {
      var last := |refs| - 1;
      NoteAllUses(values[..last], refs[..last], t, source);
      NoteUses(values[last], refs[last], NoteAll(values[..last], refs[..last], t), source);
      assert forall i | 0 <= i < last :: refs[..last][i] == refs[i] && values[..last][i] == values[i];
    }
  }

  predicate UsesAny(m: RecordMap, i: Inputs, source: string)
    requires |i.metadata| == |m.metadata|
  {
    || Uses(i.externalId, m.externalId, source)
    || Uses(i.amount, m.amount, source)
    || (m.date.Some? && m.date.value.source == source)
    || (exists k | 0 <= k < |m.metadata| :: Uses(i.metadata[k], m.metadata[k], source))
    || (m.description.Some? && Uses(i.description, m.description.value, source))
  }

  lemma TrailUses(m: RecordMap, i: Inputs, source: string)
    requires |i.metadata| == |m.metadata|
    ensures source in FullTrail(m, i).used <==> UsesAny(m, i, source)
  {
    var one := Note(i.externalId, m.externalId, NOTHING);
    NoteUses(i.externalId, m.externalId, NOTHING, source);
    NoteUses(i.amount, m.amount, one, source);
    NoteAllUses(i.metadata, m.metadata, HeadTrail(m, i), source);
    if m.description.Some? {
      NoteUses(i.description, m.description.value, NoteAll(i.metadata, m.metadata, HeadTrail(m, i)), source);
    }
  }

  lemma {:induction false} ResolvedAllAt(lib: Library, payload: Json, refs: seq<FieldRef>, i: nat)
    requires i < |refs|
    ensures ResolvedAll(lib, payload, refs)[i] == Resolved(lib, payload, refs[i])
  {
    if i < |refs| - 1 {
      ResolvedAllAt(lib, payload, refs[..|refs| - 1], i);
    }
  }

  /** The date's source is always used; any other configured source is used exactly when it reads something. */
  lemma UsedIff(lib: Library, m: RecordMap, payload: Json, receivedAt: string, source: string)
    ensures source in FullTrail(m, InputsOf(lib, m, payload, receivedAt)).used <==>
            || (m.date.Some? && m.date.value.source == source)
            || (Names(m, source) && Read(lib, payload, source).Some?)
  {
    var i := InputsOf(lib, m, payload, receivedAt);
    var refs := Refs(m);
    TrailUses(m, i, source);
    forall k | 0 <= k < |m.metadata|
      ensures Uses(i.metadata[k], m.metadata[k], source) <==>
              m.metadata[k].source == source && Read(lib, payload, source).Some?
    {
      ResolvedAllAt(lib, payload, m.metadata, k);
    }
    NamesIff(m, source);
  }

  lemma NamesIff(m: RecordMap, source: string)
    ensures Names(m, source) <==>
            || m.externalId.source == source || m.amount.source == source
            || (m.date.Some? && m.date.value.source == source)
            || (exists k | 0 <= k < |m.metadata| :: m.metadata[k].source == source)
            || (m.description.Some? && m.description.value.source == source)
  {
    var refs := Refs(m);
    NamesRefs(m);
    forall k | 0 <= k < |refs|
      ensures refs[k] in [m.externalId, m.amount] || refs[k] in m.metadata || Some(refs[k]) == m.description
    {
    }
  }

  /** A used source that ends at a leaf, stars standing for any segment, takes it off the report. */
  lemma UsedCovers(source: string, path: seq<string>)
    requires ArePlainKeys(path) && path != []
    ensures source == Join(path) || StarMatch(source, Join(path)) <==>
            |Split(source)| == |path| && Covers(Split(source), path)
  {
    SplitJoin(path);
    if |Split(source)| == |path| && Covers(Split(source), path) {
      if STAR in Split(source) {
        var i :| 0 <= i < |Split(source)| && Split(source)[i] == STAR;
        SegmentChars(source, i, '*');
      } else {
        assert Split(source) == path;
        SplitInjective(source, Join(path));
      }
    }
  }

  ghost predicate CanonicalMap(lib: Library, m: RecordMap) {
    forall source | Names(m, source) :: IsCanonical(lib.number, Split(source))
  }

  /** A configured source names an ancestor of the leaf, so the leaf goes with the whole value. */
  ghost predicate StopsAbove(m: RecordMap, path: seq<string>) {
    exists source | Names(m, source) :: Covers(Split(source), path) && |Split(source)| < |path|
  }

  lemma LocalLeafIsNotRead(lib: Library, m: RecordMap, payload: Json, receivedAt: string, path: seq<string>, source: string)
    requires ReadsIndices(lib.number) && CanonicalMap(lib, m) && Plain(payload)
    requires path != [] && IsLeafPath(payload, path) && Names(m, source)
    requires !IsUsed(FullTrail(m, InputsOf(lib, m, payload, receivedAt)).used, Join(path))
    ensures Covers(Split(source), path) ==> |Split(source)| < |path|
  {
    if Covers(Split(source), path) {
      CoveringReads(lib.number, payload, Split(source), path);
      UsedIff(lib, m, payload, receivedAt, source);
      ReachedKeysArePlain(payload, path);
      UsedCovers(source, path);
    }
  }

  /**
   A scalar that the report lists as not forwarded can change without any configured source reading
   differently exactly when no configured source stops above it; then the whole outcome is the same.
   */
  lemma LocalLeavesStayLocalIff(lib: Library, m: RecordMap, payload: Json, receivedAt: string, path: seq<string>, v: Json)
    requires ReadsIndices(lib.number) && CanonicalMap(lib, m) && Plain(payload)
    requires path != [] && IsLeafPath(payload, path) && IsScalar(At(payload, path)) && IsScalar(v) && v != At(payload, path)
    requires var r := MappedFrom(lib, m, InputsOf(lib, m, payload, receivedAt));
             r.Ok? && Join(path) in r.value.notForwarded
    ensures ReadAlike(lib, m, payload, Put(payload, path, v)) <==> !StopsAbove(m, path)
    ensures !StopsAbove(m, path) ==>
              MappedFrom(lib, m, InputsOf(lib, m, Put(payload, path, v), receivedAt))
              == MappedFrom(lib, m, InputsOf(lib, m, payload, receivedAt))
  {
    var used := FullTrail(m, InputsOf(lib, m, payload, receivedAt)).used;
    NotForwardedAre(used, LeafPaths(payload, ""), Join(path));
    var other := Put(payload, path, v);
    forall source | Names(m, source)
      ensures Read(lib, other, source) == Read(lib, payload, source) <==>
              !(Covers(Split(source), path) && |Split(source)| < |path|)
    {
      LocalLeafIsNotRead(lib, m, payload, receivedAt, path, source);
      SeenIffCovered(lib.number, payload, path, v, Split(source));
    }
    if !StopsAbove(m, path) {
      PutKeepsLeaves(payload, path, v, "");
      MapIsTheAllowlist(lib, m, payload, other, receivedAt);
    }
  }

  /** Sources that read scalars, or wildcard arrays of scalars, stop above no leaf. */
  lemma FlatSourcesDoNotStopAbove(lib: Library, m: RecordMap, payload: Json, path: seq<string>)
    requires ReadsIndices(lib.number) && CanonicalMap(lib, m) && IsLeafPath(payload, path)
    requires forall source | Names(m, source) && Read(lib, payload, source).Some? ::
               IsFlat(Read(lib, payload, source).value, Stars(Split(source)))
    ensures !StopsAbove(m, path)
  {
    if StopsAbove(m, path) {
      var source :| Names(m, source) && Covers(Split(source), path) && |Split(source)| < |path|;
      StoppingAboveIsNotFlat(lib.number, payload, Split(source), path);
    }
  }

  lemma FieldReads(lib: Library, payload: Json, i: nat)
    requires payload.Obj? && Plain(payload) && i < Count(payload)
    ensures Read(lib, payload, KeyAt(payload, i)) == Some(ValueAt(payload, i))
    ensures Reaches(payload, [KeyAt(payload, i)]) && At(payload, [KeyAt(payload, i)]) == ValueAt(payload, i)
  {
    FindAt(payload, i);
    var key := KeyAt(payload, i);
    SplitPlain(key);
    assert GetSegments(lib.number, ValueAt(payload, i), []) == Some(ValueAt(payload, i));
    assert [key][1..] == [];
  }

  function NestedPayload(n: string, a: string, b: string, x: string): Json {
    Obj([Field(n, Num("1")), Field(a, Obj([Field(b, Str(x))]))])
  }

  /** A map that reads its id and amount at `n` and forwards the object at `a`. */
  function ObjectMap(n: string, a: string): RecordMap {
    var ref := FieldRef("n", n, [], None);
    RecordMap("key", ref, ref, false, None, None, None, [FieldRef("out", a, [], None)])
  }

  lemma NestedReads(lib: Library, n: string, a: string, b: string, x: string)
    requires IsPlainKey(n) && IsPlainKey(a) && IsPlainKey(b) && n != a
    ensures var payload := NestedPayload(n, a, b, x);
            && Plain(payload) && IsLeafPath(payload, [a, b])
            && Read(lib, payload, n) == Some(Num("1")) && Read(lib, payload, a) == Some(Obj([Field(b, Str(x))]))
  {
    var payload := NestedPayload(n, a, b, x);
    var inner := Obj([Field(b, Str(x))]);
    assert forall i | 0 <= i < 2 :: payload.fields[i].key == if i == 0 then n else a;
    assert Plain(Str(x)) && Plain(Num("1"));
    assert Plain(inner);
    FieldReads(lib, payload, 0);
    FieldReads(lib, payload, 1);
    FieldReads(lib, inner, 0);
    assert [a, b][1..] == [b] && [b][1..] == [];
  }

  /**
   Without that condition the report is wrong about what leaves: a map that forwards the object at `a`
   forwards the text at `a.b`, which is listed as not forwarded.
   */
  lemma ForwardedObjectIsListedAsLocal(lib: Library, n: string, a: string, b: string, x: string, receivedAt: string)
    requires IsPlainKey(n) && IsPlainKey(a) && IsPlainKey(b) && n != a
    ensures var m := ObjectMap(n, a);
            var r := MappedFrom(lib, m, InputsOf(lib, m, NestedPayload(n, a, b, x), receivedAt));
            && r.Ok? && Join([a, b]) in r.value.notForwarded
            && r.value.record.metadata == map["out" := Obj([Field(b, Str(Denylist.HardDenyValue(x)))])]
  {
    var m, payload := ObjectMap(n, a), NestedPayload(n, a, b, x);
    var i := InputsOf(lib, m, payload, receivedAt);
    NestedInputs(lib, n, a, b, x, receivedAt);
    NotUsed(m, i, n, a, b);
    NotForwardedAre(FullTrail(m, i).used, i.leaves, Join([a, b]));
    MaskedObject(b, x);
    ForwardsOne(i.metadata[0].value, m.metadata[0]);
  }

  lemma ForwardsOne(v: Json, ref: FieldRef)
    requires ref.enrichment.None?
    ensures Metadata([Some(v)], [ref]) == map[ref.name := Denylist.HardDenyDeep(v)]
  {
    assert Metadata([], []) == map[];
    assert [ref][..0] == [] && [Some(v)][..0] == [];
  }

  lemma NestedInputs(lib: Library, n: string, a: string, b: string, x: string, receivedAt: string)
    requires IsPlainKey(n) && IsPlainKey(a) && IsPlainKey(b) && n != a
    ensures var i := InputsOf(lib, ObjectMap(n, a), NestedPayload(n, a, b, x), receivedAt);
            && i.externalId == Some(Num("1")) && i.amount == Some(Num("1")) && i.date.Some?
            && i.metadata == [Some(Obj([Field(b, Str(x))]))]
            && Join([a, b]) in i.leaves
            && Cents.TextToCents(lib.fl, "1").Ok?
  {
    var m, payload := ObjectMap(n, a), NestedPayload(n, a, b, x);
    NestedReads(lib, n, a, b, x);
    LeafIsListedIff(payload, [a, b]);
    assert Cents.IsAmountText("1");
    assert |ResolvedAll(lib, payload, m.metadata)| == 1;
    ResolvedAllAt(lib, payload, m.metadata, 0);
  }

  lemma MaskedObject(b: string, x: string)
    ensures Denylist.HardDenyDeep(Obj([Field(b, Str(x))])) == Obj([Field(b, Str(Denylist.HardDenyValue(x)))])
  {
    var fields := [Field(b, Str(x))];
    Denylist.DenyFieldsAt(fields, 0);
    assert Denylist.DenyFields(fields) == [Field(b, Str(Denylist.HardDenyValue(x)))];
  }

  lemma NotUsed(m: RecordMap, i: Inputs, n: string, a: string, b: string)
    requires IsPlainKey(n) && IsPlainKey(a) && IsPlainKey(b) && m == ObjectMap(n, a) && |i.metadata| == 1
    ensures !IsUsed(FullTrail(m, i).used, Join([a, b]))
  {
    SplitJoin([a, b]);
    SplitPlain(n);
    SplitPlain(a);
    forall source | source in FullTrail(m, i).used ensures source != Join([a, b]) && !StarMatch(source, Join([a, b])) {
      TrailUses(m, i, source);
      assert source == n || source == a;
    }
  }

  // ---- what leaves is masked ----

  lemma {:induction false} MetadataIsMasked(values: seq<Option<Json>>, refs: seq<FieldRef>, name: string)
    requires |values| == |refs| && name in Metadata(values, refs)
    ensures Denylist.Masked(Metadata(values, refs)[name])
  {
    var last := |refs| - 1;
    var v := Forwarded(values[last], refs[last]);
    if v.Some? && refs[last].name == name {
      Denylist.HardDenyDeepMasks(v.value);
    } else {
      MetadataIsMasked(values[..last], refs[..last], name);
    }
  }

  /** Whatever the map and the payload, every string in the metadata and the description is masked. */
  lemma RecordIsMasked(lib: Library, m: RecordMap, i: Inputs)
    requires |i.metadata| == |m.metadata| && MappedFrom(lib, m, i).Ok?
    ensures var record := MappedFrom(lib, m, i).value.record;
            && (forall name | name in record.metadata :: Denylist.Masked(record.metadata[name]))
            && (record.description.Some? ==> Denylist.Clean(record.description.value))
  {
    var record := MappedFrom(lib, m, i).value.record;
    forall name | name in record.metadata ensures Denylist.Masked(record.metadata[name]) {
      MetadataIsMasked(i.metadata, m.metadata, name);
    }
    if record.description.Some? {
      var s := Forwarded(i.description, m.description.value).value.s;
      Denylist.NoSsnIsLeft(s);
      Denylist.CandidatesLeftFailLuhn(s);
    }
  }
}

/**
 The fields of a mapped record one by one: when an event maps at all and what it is refused for, what each metadata field
 and the description say, what is left to the host's enrichments, and what the transforms do to a value.
 */
module Fields {
  import opened Prelude
  import opened Json
  import opened Paths
  import opened Mapper
  import Cents
  import Denylist

  // ---- transforms ----

  /** `value` is a text, or lists of values nested to any depth with the text at this place in them. */
  predicate TextAt(value: Json, place: seq<nat>, s: string)
    decreases |place|
  {
    if place == [] then value == Str(s)
    else value.Arr? && place[0] < |value.items| && TextAt(value.items[place[0]], place[1..], s)
  }

  lemma {:induction false} ItemsApplied(lib: Library, t: Transform, items: seq<Json>, i: nat)
    ensures |ApplyToItems(lib, t, items)| == |items|
    ensures i < |items| ==> ApplyToItems(lib, t, items)[i] == ApplyTransform(lib, t, items[i])
    decreases |items|
  {
    if items != [] {
      ItemsApplied(lib, t, items[1..], if i == 0 then 0 else i - 1);
    }
  }

  /** Trimming and lower-casing reach every text in nested lists and keep it in its place. */
  lemma {:induction false} TransformReaches(lib: Library, t: Transform, value: Json, place: seq<nat>, s: string)
    requires t != Hash && TextAt(value, place, s)
    ensures TextAt(ApplyTransform(lib, t, value), place, if t == Trim then lib.trim(s) else lib.lower(s))
    decreases |place|
  {
    if place != [] {
      ItemsApplied(lib, t, value.items, place[0]);
      TransformReaches(lib, t, value.items[place[0]], place[1..], s);
    }
  }

  /** They leave every other value alone, and lists as long as they were; a hash takes anything, a text as it is. */
  lemma TransformKeeps(lib: Library, t: Transform, value: Json)
    ensures t == Hash ==>
              ApplyTransform(lib, t, value) == Str("hmac256:" + lib.hmac(if value.Str? then value.s else lib.stringify(value)))
    ensures t != Hash && !value.Str? && !value.Arr? ==> ApplyTransform(lib, t, value) == value
    ensures t != Hash && value.Arr? ==>
              ApplyTransform(lib, t, value).Arr? && |ApplyTransform(lib, t, value).items| == |value.items|
  {
    if value.Arr? {
      ItemsApplied(lib, t, value.items, 0);
    }
  }

  /** The transforms run from first to last. */
  lemma {:induction false} FirstComesFirst(lib: Library, t: Transform, more: seq<Transform>, value: Json)
    ensures ApplyAll(lib, [t] + more, value) == ApplyAll(lib, more, ApplyTransform(lib, t, value))
    decreases |more|
  {
    var all := [t] + more;
    if more == [] {
      assert all == [t] && all[..0] == [];
      assert ApplyAll(lib, all[..0], value) == value;
    } else {
      assert all[..|all| - 1] == [t] + more[..|more| - 1];
      FirstComesFirst(lib, t, more[..|more| - 1], value);
    }
  }

  // ---- when an event maps ----

  /** What the field holds for the record: nothing if its source reads nothing, or the host is to fill it. */
  function ValueOf(lib: Library, payload: Json, ref: FieldRef): Option<Json> {
    var v := Read(lib, payload, ref.source);
    if v.None? || ref.enrichment.Some? then None else Some(ApplyAll(lib, ref.transforms, v.value))
  }

  lemma ValueIsForwarded(lib: Library, payload: Json, ref: FieldRef)
    ensures Forwarded(Resolved(lib, payload, ref), ref) == ValueOf(lib, payload, ref)
  {
  }

  predicate IsText(v: Option<Json>) {
    v.Some? && (v.value.Str? || v.value.Num?)
  }

  /** The value is an amount of the grammar, as a text with its noise stripped or as a number. */
  ghost predicate IsAmount(v: Option<Json>) {
    match v
    case Some(Str(s)) => exists a: Cents.Amount :: a.Valid() && a.Text() == Cents.Strip(s)
    case Some(Num(repr)) => exists a: Cents.Amount :: a.Valid() && a.Text() == repr
    case _ => false
  }

  predicate HasDate(lib: Library, ref: Option<DateRef>, payload: Json) {
    ref.Some? ==>
      var v := Read(lib, payload, ref.value.source);
      lib.parseDate(if v.Some? then v.value else Null, ref.value.format).Some?
  }

  lemma AmountConverts(lib: Library, v: Option<Json>)
    ensures Cents.ToCents(lib.fl, OrNull(v)).Ok? <==> IsAmount(v)
  {
    match v
    case Some(Str(s)) => Cents.ConvertsExactlyTheGrammar(lib.fl, s);
    case Some(Num(repr)) => NumberConverts(lib, repr);
    case _ =>
  }

  lemma NumberConverts(lib: Library, repr: string)
    ensures Cents.ToCents(lib.fl, Num(repr)).Ok? <==> exists a: Cents.Amount :: a.Valid() && a.Text() == repr
  {
    if Cents.IsAmountText(repr) {
      var a := Cents.AmountIsText(repr);
    }
    forall a: Cents.Amount | a.Valid() && a.Text() == repr ensures Cents.IsAmountText(repr) {
      Cents.TextIsAmount(a);
    }
  }

  /** An event maps exactly if it has an id, an amount and a date, and is refused for the first of them that it lacks. */
  lemma MapsIff(lib: Library, m: RecordMap, payload: Json, receivedAt: string)
    ensures var r := MappedFrom(lib, m, InputsOf(lib, m, payload, receivedAt));
            var id, amount := ValueOf(lib, payload, m.externalId), ValueOf(lib, payload, m.amount);
            && (r.Ok? <==> IsText(id) && IsAmount(amount) && HasDate(lib, m.date, payload))
            && (!IsText(id) ==> r == Err(MissingExternalId(m.externalId.source)))
            && (IsText(id) && !IsAmount(amount) ==> r.Err? && r.error.BadAmount?)
            && (IsText(id) && IsAmount(amount) && !HasDate(lib, m.date, payload) ==> r == Err(BadDate))
  {
    ValueIsForwarded(lib, payload, m.externalId);
    ValueIsForwarded(lib, payload, m.amount);
    AmountConverts(lib, ValueOf(lib, payload, m.amount));
  }

  // ---- metadata and description ----

  lemma {:induction false} MetadataOnly(values: seq<Option<Json>>, refs: seq<FieldRef>, name: string)
    requires |values| == |refs|
    ensures name in Metadata(values, refs) ==>
              exists i | 0 <= i < |refs| :: refs[i].name == name && Forwarded(values[i], refs[i]).Some?
  {
    if refs != [] {
      var last := |refs| - 1;
      MetadataOnly(values[..last], refs[..last], name);
      if name in Metadata(values[..last], refs[..last]) {
        var i :| 0 <= i < last && refs[..last][i].name == name && Forwarded(values[..last][i], refs[..last][i]).Some?;
        assert refs[i].name == name && Forwarded(values[i], refs[i]).Some?;
      }
    }
  }

  /** The entry is this field's: no other field has its name. */
  predicate IsOnlyName(refs: seq<FieldRef>, i: nat)
    requires i < |refs|
  {
    forall j | 0 <= j < |refs| && j != i :: refs[j].name != refs[i].name
  }

  lemma {:induction false} MetadataIs(values: seq<Option<Json>>, refs: seq<FieldRef>, i: nat)
    requires |values| == |refs| && i < |refs| && IsOnlyName(refs, i)
    ensures var v, metadata := Forwarded(values[i], refs[i]), Metadata(values, refs);
            && (refs[i].name in metadata <==> v.Some?)
            && (v.Some? ==> metadata[refs[i].name] == Denylist.HardDenyDeep(v.value))
    decreases |refs|
  {
    var last := |refs| - 1;
    if i == last {
      MetadataOnly(values[..last], refs[..last], refs[i].name);
      assert forall j | 0 <= j < last :: refs[..last][j].name == refs[j].name && refs[j].name != refs[i].name;
    } else {
      assert forall j | 0 <= j < last && j != i :: refs[..last][j].name == refs[j].name && refs[j].name != refs[i].name;
      MetadataIs(values[..last], refs[..last], i);
      assert refs[last].name != refs[i].name;
    }
  }

  /** A metadata field is forwarded exactly if its source reads something and no enrichment is to fill it; masked, and as it reads. */
  lemma MetadataFieldIs(lib: Library, m: RecordMap, payload: Json, receivedAt: string, i: nat)
    requires MappedFrom(lib, m, InputsOf(lib, m, payload, receivedAt)).Ok? && i < |m.metadata| && IsOnlyName(m.metadata, i)
    ensures var metadata := MappedFrom(lib, m, InputsOf(lib, m, payload, receivedAt)).value.record.metadata;
            var name, v := m.metadata[i].name, ValueOf(lib, payload, m.metadata[i]);
            && (name in metadata <==> v.Some?)
            && (v.Some? ==> metadata[name] == Denylist.HardDenyDeep(v.value))
            && forall other | other in metadata :: exists j | 0 <= j < |m.metadata| :: m.metadata[j].name == other
  {
    var values := ResolvedAll(lib, payload, m.metadata);
    ResolvedAllAt(lib, payload, m.metadata, i);
    ValueIsForwarded(lib, payload, m.metadata[i]);
    MetadataIs(values, m.metadata, i);
    forall other | other in Metadata(values, m.metadata)
      ensures exists j | 0 <= j < |m.metadata| :: m.metadata[j].name == other
    {
      MetadataOnly(values, m.metadata, other);
    }
  }

  /** There is a description exactly if one is configured and holds a text, and it is that text, masked. */
  lemma DescriptionIs(lib: Library, m: RecordMap, payload: Json, receivedAt: string)
    requires MappedFrom(lib, m, InputsOf(lib, m, payload, receivedAt)).Ok?
    ensures var description := MappedFrom(lib, m, InputsOf(lib, m, payload, receivedAt)).value.record.description;
            if m.description.None? then description.None?
            else
              var v := ValueOf(lib, payload, m.description.value);
              description == if v.Some? && v.value.Str? then Some(Denylist.HardDenyValue(v.value.s)) else None
  {
    if m.description.Some? {
      ValueIsForwarded(lib, payload, m.description.value);
    }
  }

  // ---- what is noted ----

  /** The field's source reads something, and the host is to fill it by this enrichment, from this input. */
  predicate Waits(lib: Library, payload: Json, ref: FieldRef, p: Pending) {
    && ref.enrichment == Some(p.enrichment) && p.name == ref.name && p.source == ref.source
    && Read(lib, payload, ref.source).Some? && p.input == ApplyAll(lib, ref.transforms, Read(lib, payload, ref.source).value)
  }

  /** The field is forwarded, hashed. */
  predicate IsHashed(lib: Library, payload: Json, ref: FieldRef) {
    ref.enrichment.None? && Hash in ref.transforms && Read(lib, payload, ref.source).Some?
  }

  /** Some field of the map waits for an enrichment with this entry. */
  predicate SomeWaits(lib: Library, payload: Json, refs: seq<FieldRef>, p: Pending) {
    exists i | 0 <= i < |refs| :: Waits(lib, payload, refs[i], p)
  }

  predicate SomeHashed(lib: Library, payload: Json, refs: seq<FieldRef>, name: string) {
    exists i | 0 <= i < |refs| :: refs[i].name == name && IsHashed(lib, payload, refs[i])
  }

  lemma NoteIs(lib: Library, payload: Json, ref: FieldRef, t: Trail, p: Pending, name: string)
    ensures var t' := Note(Resolved(lib, payload, ref), ref, t);
            && (p in t'.pending <==> p in t.pending || Waits(lib, payload, ref, p))
            && (name in t'.hashed <==> name in t.hashed || (ref.name == name && IsHashed(lib, payload, ref)))
  {
  }

  lemma {:induction false} NotesAre(lib: Library, payload: Json, refs: seq<FieldRef>, t: Trail, p: Pending, name: string)
    ensures var t' := NoteAll(ResolvedAll(lib, payload, refs), refs, t);
            && (p in t'.pending <==> p in t.pending || SomeWaits(lib, payload, refs, p))
            && (name in t'.hashed <==> name in t.hashed || SomeHashed(lib, payload, refs, name))
  {
    if refs != [] {
      var last := |refs| - 1;
      var before := LastNote(lib, payload, refs, t);
      NotesAre(lib, payload, refs[..last], t, p, name);
      NoteIs(lib, payload, refs[last], before, p, name);
      SomeWaitsNext(lib, payload, refs, p);
      SomeHashedNext(lib, payload, refs, name);
    }
  }

  lemma LastNote(lib: Library, payload: Json, refs: seq<FieldRef>, t: Trail) returns (before: Trail)
    requires refs != []
    ensures before == NoteAll(ResolvedAll(lib, payload, refs[..|refs| - 1]), refs[..|refs| - 1], t)
    ensures NoteAll(ResolvedAll(lib, payload, refs), refs, t) == Note(Resolved(lib, payload, refs[|refs| - 1]), refs[|refs| - 1], before)
  {
    var last := |refs| - 1;
    assert ResolvedAll(lib, payload, refs)[..last] == ResolvedAll(lib, payload, refs[..last]);
    before := NoteAll(ResolvedAll(lib, payload, refs[..last]), refs[..last], t);
  }

  lemma SomeWaitsNext(lib: Library, payload: Json, refs: seq<FieldRef>, p: Pending)
    requires refs != []
    ensures SomeWaits(lib, payload, refs, p) <==>
              SomeWaits(lib, payload, refs[..|refs| - 1], p) || Waits(lib, payload, refs[|refs| - 1], p)
  {
    assert forall i | 0 <= i < |refs| - 1 :: refs[..|refs| - 1][i] == refs[i];
  }

  lemma SomeHashedNext(lib: Library, payload: Json, refs: seq<FieldRef>, name: string)
    requires refs != []
    ensures SomeHashed(lib, payload, refs, name) <==>
              || SomeHashed(lib, payload, refs[..|refs| - 1], name)
              || (refs[|refs| - 1].name == name && IsHashed(lib, payload, refs[|refs| - 1]))
  {
    assert forall i | 0 <= i < |refs| - 1 :: refs[..|refs| - 1][i] == refs[i];
  }

  lemma HeadNotes(lib: Library, m: RecordMap, payload: Json, receivedAt: string, p: Pending, name: string)
    ensures var t := HeadTrail(m, InputsOf(lib, m, payload, receivedAt));
            && (p in t.pending <==> Waits(lib, payload, m.externalId, p) || Waits(lib, payload, m.amount, p))
            && (name in t.hashed <==>
                  || (m.externalId.name == name && IsHashed(lib, payload, m.externalId))
                  || (m.amount.name == name && IsHashed(lib, payload, m.amount)))
  {
    var first := Note(Resolved(lib, payload, m.externalId), m.externalId, NOTHING);
    NoteIs(lib, payload, m.externalId, NOTHING, p, name);
    NoteIs(lib, payload, m.amount, first, p, name);
  }

  lemma InRefs(m: RecordMap)
    ensures |Refs(m)| == 2 + |m.metadata| + if m.description.Some? then 1 else 0
    ensures Refs(m)[0] == m.externalId && Refs(m)[1] == m.amount
    ensures forall i | 0 <= i < |m.metadata| :: Refs(m)[i + 2] == m.metadata[i]
    ensures m.description.Some? ==> Refs(m)[|m.metadata| + 2] == m.description.value
  {
  }

  lemma SomeOfRefs(lib: Library, m: RecordMap, payload: Json, p: Pending, name: string)
    ensures SomeWaits(lib, payload, Refs(m), p) <==>
              || Waits(lib, payload, m.externalId, p) || Waits(lib, payload, m.amount, p) || SomeWaits(lib, payload, m.metadata, p)
              || (m.description.Some? && Waits(lib, payload, m.description.value, p))
    ensures SomeHashed(lib, payload, Refs(m), name) <==>
              || (m.externalId.name == name && IsHashed(lib, payload, m.externalId))
              || (m.amount.name == name && IsHashed(lib, payload, m.amount)) || SomeHashed(lib, payload, m.metadata, name)
              || (m.description.Some? && m.description.value.name == name && IsHashed(lib, payload, m.description.value))
  {
    InRefs(m);
    var refs := Refs(m);
    forall i | 0 <= i < |refs|
      ensures refs[i] == m.externalId || refs[i] == m.amount || (m.description.Some? && refs[i] == m.description.value)
              || exists k | 0 <= k < |m.metadata| :: m.metadata[k] == refs[i]
    {
      if 2 <= i < |m.metadata| + 2 {
        assert m.metadata[i - 2] == refs[i];
      }
    }
    SomeOfPart(lib, m, payload, p, name);
  }

  lemma SomeOfPart(lib: Library, m: RecordMap, payload: Json, p: Pending, name: string)
    ensures SomeWaits(lib, payload, m.metadata, p) ==> SomeWaits(lib, payload, Refs(m), p)
    ensures SomeHashed(lib, payload, m.metadata, name) ==> SomeHashed(lib, payload, Refs(m), name)
  {
    InRefs(m);
    if SomeWaits(lib, payload, m.metadata, p) {
      var k :| 0 <= k < |m.metadata| && Waits(lib, payload, m.metadata[k], p);
      assert Waits(lib, payload, Refs(m)[k + 2], p);
    }
    if SomeHashed(lib, payload, m.metadata, name) {
      var k :| 0 <= k < |m.metadata| && m.metadata[k].name == name && IsHashed(lib, payload, m.metadata[k]);
      assert IsHashed(lib, payload, Refs(m)[k + 2]);
    }
  }

  /**
   What is left to the host is exactly the fields with an enrichment whose source reads something, each with the
   transformed value as its input; and the fields listed as hashed are exactly those forwarded with a hash among their
   transforms.
   */
  lemma NotesAreOf(lib: Library, m: RecordMap, payload: Json, receivedAt: string, p: Pending, name: string)
    requires MappedFrom(lib, m, InputsOf(lib, m, payload, receivedAt)).Ok?
    ensures var trail := MappedFrom(lib, m, InputsOf(lib, m, payload, receivedAt)).value.trail;
            && (p in trail.pending <==> SomeWaits(lib, payload, Refs(m), p))
            && (name in trail.hashed <==> SomeHashed(lib, payload, Refs(m), name))
  {
    var i := InputsOf(lib, m, payload, receivedAt);
    var head := HeadTrail(m, i);
    HeadNotes(lib, m, payload, receivedAt, p, name);
    NotesAre(lib, payload, m.metadata, head, p, name);
    if m.description.Some? {
      NoteIs(lib, payload, m.description.value, NoteAll(i.metadata, m.metadata, head), p, name);
    }
    SomeOfRefs(lib, m, payload, p, name);
  }

  // ---- where each field is said to come from ----

  /** The field reads something, and this is where it is said to come from. */
  predicate ComesFrom(lib: Library, payload: Json, ref: FieldRef, name: string, o: Origin) {
    && ref.name == name && Read(lib, payload, ref.source).Some?
    && o == match ref.enrichment
            case None => Source(ref.source)
            case Some(enrichment) => Enriched(ref.source, enrichment)
  }

  predicate SomeComesFrom(lib: Library, payload: Json, refs: seq<FieldRef>, name: string, o: Origin) {
    exists i | 0 <= i < |refs| :: ComesFrom(lib, payload, refs[i], name, o)
  }

  predicate SomeReads(lib: Library, payload: Json, refs: seq<FieldRef>, name: string) {
    exists i | 0 <= i < |refs| :: refs[i].name == name && Read(lib, payload, refs[i].source).Some?
  }

  lemma OriginNoted(lib: Library, payload: Json, ref: FieldRef, t: Trail, name: string)
    ensures var t' := Note(Resolved(lib, payload, ref), ref, t);
            && (name in t'.mapped <==> name in t.mapped || (ref.name == name && Read(lib, payload, ref.source).Some?))
            && (name in t'.mapped ==>
                  || ComesFrom(lib, payload, ref, name, t'.mapped[name])
                  || (name in t.mapped && t'.mapped[name] == t.mapped[name]))
  {
  }

  lemma {:induction false} OriginsNoted(lib: Library, payload: Json, refs: seq<FieldRef>, t: Trail, name: string)
    ensures var t' := NoteAll(ResolvedAll(lib, payload, refs), refs, t);
            && (name in t'.mapped <==> name in t.mapped || SomeReads(lib, payload, refs, name))
            && (name in t'.mapped ==>
                  || SomeComesFrom(lib, payload, refs, name, t'.mapped[name])
                  || (name in t.mapped && t'.mapped[name] == t.mapped[name]))
  {
    if refs != [] {
      var last := |refs| - 1;
      var before := LastNote(lib, payload, refs, t);
      OriginsNoted(lib, payload, refs[..last], t, name);
      OriginNoted(lib, payload, refs[last], before, name);
      SomeReadsNext(lib, payload, refs, name);
      SomeComesNext(lib, payload, refs, name);
    }
  }

  lemma SomeReadsNext(lib: Library, payload: Json, refs: seq<FieldRef>, name: string)
    requires refs != []
    ensures SomeReads(lib, payload, refs, name) <==>
              || SomeReads(lib, payload, refs[..|refs| - 1], name)
              || (refs[|refs| - 1].name == name && Read(lib, payload, refs[|refs| - 1].source).Some?)
  {
    assert forall i | 0 <= i < |refs| - 1 :: refs[..|refs| - 1][i] == refs[i];
  }

  lemma SomeComesNext(lib: Library, payload: Json, refs: seq<FieldRef>, name: string)
    requires refs != []
    ensures forall o :: SomeComesFrom(lib, payload, refs, name, o) <==>
              SomeComesFrom(lib, payload, refs[..|refs| - 1], name, o) || ComesFrom(lib, payload, refs[|refs| - 1], name, o)
  {
    assert forall i | 0 <= i < |refs| - 1 :: refs[..|refs| - 1][i] == refs[i];
  }

  /** Where the date is said to come from. */
  function DateOrigin(date: Option<DateRef>): Origin {
    if date.None? then ReceiveTime else Source(date.value.source)
  }

  lemma InAnyOrder(lib: Library, m: RecordMap, payload: Json, name: string, o: Origin)
    ensures ComesFrom(lib, payload, m.externalId, name, o) || ComesFrom(lib, payload, m.amount, name, o)
            || SomeComesFrom(lib, payload, m.metadata, name, o)
            || (m.description.Some? && ComesFrom(lib, payload, m.description.value, name, o))
            ==> SomeComesFrom(lib, payload, Refs(m), name, o)
    ensures SomeReads(lib, payload, Refs(m), name) ==>
              || (m.externalId.name == name && Read(lib, payload, m.externalId.source).Some?)
              || (m.amount.name == name && Read(lib, payload, m.amount.source).Some?)
              || SomeReads(lib, payload, m.metadata, name)
              || (m.description.Some? && m.description.value.name == name && Read(lib, payload, m.description.value.source).Some?)
  {
    InRefs(m);
    var refs := Refs(m);
    if SomeComesFrom(lib, payload, m.metadata, name, o) {
      var k :| 0 <= k < |m.metadata| && ComesFrom(lib, payload, m.metadata[k], name, o);
      assert ComesFrom(lib, payload, refs[k + 2], name, o);
    }
    if SomeReads(lib, payload, refs, name) {
      var i :| 0 <= i < |refs| && refs[i].name == name && Read(lib, payload, refs[i].source).Some?;
      if 2 <= i < |m.metadata| + 2 {
        assert m.metadata[i - 2] == refs[i];
      }
    }
  }

  lemma HeadOrigins(lib: Library, m: RecordMap, payload: Json, receivedAt: string, name: string)
    ensures var t := HeadTrail(m, InputsOf(lib, m, payload, receivedAt));
            && (name in t.mapped <==>
                  || name == "date" || (m.externalId.name == name && Read(lib, payload, m.externalId.source).Some?)
                  || (m.amount.name == name && Read(lib, payload, m.amount.source).Some?))
            && (name in t.mapped ==>
                  || (name == "date" && t.mapped[name] == DateOrigin(m.date))
                  || ComesFrom(lib, payload, m.externalId, name, t.mapped[name]) || ComesFrom(lib, payload, m.amount, name, t.mapped[name]))
  {
    var first := Note(Resolved(lib, payload, m.externalId), m.externalId, NOTHING);
    OriginNoted(lib, payload, m.externalId, NOTHING, name);
    OriginNoted(lib, payload, m.amount, first, name);
  }

  /**
   The report names the origin of the date and of exactly the fields whose source reads something: the source, and the
   enrichment if there is one.
   */
  lemma OriginsAre(lib: Library, m: RecordMap, payload: Json, receivedAt: string, name: string)
    requires MappedFrom(lib, m, InputsOf(lib, m, payload, receivedAt)).Ok?
    ensures var mapped := MappedFrom(lib, m, InputsOf(lib, m, payload, receivedAt)).value.trail.mapped;
            && (name == "date" || SomeReads(lib, payload, Refs(m), name) ==> name in mapped)
            && (name in mapped ==>
                  || (name == "date" && mapped[name] == DateOrigin(m.date))
                  || SomeComesFrom(lib, payload, Refs(m), name, mapped[name]))
  {
    var i := InputsOf(lib, m, payload, receivedAt);
    var head := HeadTrail(m, i);
    var body := NoteAll(i.metadata, m.metadata, head);
    var o := if name in FullTrail(m, i).mapped then FullTrail(m, i).mapped[name] else ReceiveTime;
    HeadOrigins(lib, m, payload, receivedAt, name);
    OriginsNoted(lib, payload, m.metadata, head, name);
    if m.description.Some? {
      OriginNoted(lib, payload, m.description.value, body, name);
    }
    InAnyOrder(lib, m, payload, name, o);
  }
}

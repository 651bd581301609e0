/**
 Dotted paths into JSON documents. `number` stands for what `Number(head)` makes of a path segment as an
 array index; all that is assumed of it is that it reads a canonically printed index back.
 */
module Paths {
  import opened Prelude
  import opened Json
  import opened Digits

  const STAR := "*"

  // ---- splitting and joining ----

  /** `s.split('.')` */
  function Split(s: string): (segments: seq<string>)
    ensures segments != []
  {
    if s == "" then [""]
    else
      var rest := Split(s[1..]);
      if s[0] == '.' then [""] + rest else [[s[0]] + rest[0]] + rest[1..]
  }

  /** The dotted name that one more key gives. */
  function Extend(prefix: string, key: string): string {
    if prefix == "" then key else prefix + "." + key
  }

  function Join(segments: seq<string>): string {
    if segments == [] then "" else Extend(Join(segments[..|segments| - 1]), segments[|segments| - 1])
  }

  predicate IsPlainKey(key: string) {
    key != "" && '.' !in key && key != STAR
  }

  predicate ArePlainKeys(segments: seq<string>) {
    forall i | 0 <= i < |segments| :: IsPlainKey(segments[i])
  }

  lemma {:induction false} SplitPlain(key: string)
    requires '.' !in key
    ensures Split(key) == [key]
  {
    if key != "" {
      SplitPlain(key[1..]);
      assert key == [key[0]] + key[1..];
    }
  }

  lemma {:induction false} SplitAppend(s: string, key: string)
    requires '.' !in key
    ensures Split(s + "." + key) == Split(s) + [key]
  {
    var all := s + "." + key;
    if s == "" {
      assert all[0] == '.' && all[1..] == key;
      SplitPlain(key);
    } else {
      assert all[0] == s[0] && all[1..] == s[1..] + "." + key;
      SplitAppend(s[1..], key);
      assert (Split(s[1..]) + [key])[1..] == Split(s[1..])[1..] + [key];
    }
  }

  lemma {:induction false} SplitJoin(segments: seq<string>)
    requires ArePlainKeys(segments)
    ensures Join(segments) == "" <==> segments == []
    ensures segments != [] ==> Split(Join(segments)) == segments
    decreases |segments|
  {
    if segments != [] {
      var before, key := segments[..|segments| - 1], segments[|segments| - 1];
      SplitJoin(before);
      if before == [] {
        SplitPlain(key);
      } else {
        SplitAppend(Join(before), key);
      }
      assert segments == before + [key];
    }
  }

  // ---- documents as trees of named entries ----

  /** The number of entries of an array or object; 0 for a scalar. */
  function Count(doc: Json): nat {
    match doc
    case Arr(items) => |items|
    case Obj(fields) => |fields|
    case _ => 0
  }

  function KeyAt(doc: Json, i: nat): string
    requires i < Count(doc)
  {
    if doc.Arr? then Dec(i) else doc.fields[i].key
  }

  function ValueAt(doc: Json, i: nat): (v: Json)
    requires i < Count(doc)
    ensures v < doc
  {
    if doc.Arr? then doc.items[i] else doc.fields[i].value
  }

  /** An object has one value per key, and every key is non-empty, dot-free and not a lone star. */
  predicate Plain(doc: Json) {
    && (forall i | 0 <= i < Count(doc) :: IsPlainKey(KeyAt(doc, i)) && Plain(ValueAt(doc, i)))
    && (forall i, j | 0 <= i < j < Count(doc) :: KeyAt(doc, i) != KeyAt(doc, j))
  }

  /** Where a key stands among the entries from `i` on, or the number of entries. */
  function Find(doc: Json, key: string, i: nat): (k: nat)
    requires i <= Count(doc)
    ensures i <= k <= Count(doc)
    ensures k < Count(doc) ==> KeyAt(doc, k) == key
    ensures forall j | i <= j < k :: KeyAt(doc, j) != key
    decreases Count(doc) - i
  {
    if i == Count(doc) || KeyAt(doc, i) == key then i else Find(doc, key, i + 1)
  }

  predicate Has(doc: Json, key: string) {
    Find(doc, key, 0) < Count(doc)
  }

  function Child(doc: Json, key: string): (v: Json)
    requires Has(doc, key)
    ensures v < doc
  {
    ValueAt(doc, Find(doc, key, 0))
  }

  /** `path` leads by entry names to a node. */
  predicate Reaches(doc: Json, path: seq<string>) {
    path == [] || (Has(doc, path[0]) && Reaches(Child(doc, path[0]), path[1..]))
  }

  function At(doc: Json, path: seq<string>): Json
    requires Reaches(doc, path)
  {
    if path == [] then doc else At(Child(doc, path[0]), path[1..])
  }

  /** A leaf has no entries: a scalar, an empty array or an empty object. */
  predicate IsLeafPath(doc: Json, path: seq<string>) {
    Reaches(doc, path) && Count(At(doc, path)) == 0
  }

  // ---- leafPaths ----

  function LeafPaths(doc: Json, prefix: string): seq<string>
    decreases doc, Count(doc) + 1
  {
    if Count(doc) == 0 then if prefix != "" then [prefix] else [] else EntryLeaves(doc, 0, prefix)
  }

  function EntryLeaves(doc: Json, i: nat, prefix: string): seq<string>
    requires i <= Count(doc)
    decreases doc, Count(doc) - i
  {
    if i == Count(doc) then []
    else LeafPaths(ValueAt(doc, i), Extend(prefix, KeyAt(doc, i))) + EntryLeaves(doc, i + 1, prefix)
  }

  /** `p` names the leaf that the rest of its segments reach below `prefix`. */
  predicate IsListed(doc: Json, prefix: seq<string>, p: string) {
    prefix <= Split(p) && Join(Split(p)) == p && IsLeafPath(doc, Split(p)[|prefix|..])
  }

  lemma PrefixStep(prefix: seq<string>, key: string, segments: seq<string>)
    ensures prefix + [key] <= segments <==> prefix <= segments && |segments| > |prefix| && segments[|prefix|] == key
    ensures prefix + [key] <= segments ==> segments[|prefix|..] == [key] + segments[|prefix| + 1..]
  {
    if prefix <= segments && |segments| > |prefix| && segments[|prefix|] == key {
      assert segments[..|prefix| + 1] == prefix + [key];
    }
  }

  lemma JoinExtend(prefix: seq<string>, key: string)
    ensures Join(prefix + [key]) == Extend(Join(prefix), key)
  {
    assert (prefix + [key])[..|prefix|] == prefix;
  }

  lemma FindAt(doc: Json, i: nat)
    requires Plain(doc) && i < Count(doc)
    ensures Find(doc, KeyAt(doc, i), 0) == i
  {
    var k := Find(doc, KeyAt(doc, i), 0);
    assert k <= i;
    assert KeyAt(doc, k) == KeyAt(doc, i);
  }

  /** Below entry `i`, the leaves are those of that entry's value under the longer prefix. */
  lemma ListedBelow(doc: Json, prefix: seq<string>, i: nat, p: string)
    requires Plain(doc) && i < Count(doc)
    ensures IsListed(ValueAt(doc, i), prefix + [KeyAt(doc, i)], p)
       <==> IsListed(doc, prefix, p) && |Split(p)| > |prefix| && Split(p)[|prefix|] == KeyAt(doc, i)
  {
    PrefixStep(prefix, KeyAt(doc, i), Split(p));
    FindAt(doc, i);
    if prefix + [KeyAt(doc, i)] <= Split(p) {
      var rest := Split(p)[|prefix|..];
      assert rest[0] == KeyAt(doc, i) && rest[1..] == Split(p)[|prefix| + 1..];
    }
  }

  /** The listed paths are exactly the names of the leaves. */
  lemma {:induction false} LeafPathsAre(doc: Json, prefix: seq<string>, p: string)
    requires Plain(doc) && ArePlainKeys(prefix)
    ensures p in LeafPaths(doc, Join(prefix)) <==> IsListed(doc, prefix, p) && p != ""
    decreases doc, Count(doc) + 1
  {
    SplitJoin(prefix);
    if Count(doc) == 0 {
      var rest := if prefix <= Split(p) then Split(p)[|prefix|..] else [];
      assert IsListed(doc, prefix, p) ==> rest == [] && Split(p) == prefix;
    } else {
      EntryLeavesAre(doc, 0, prefix, p);
      assert IsListed(doc, prefix, p) ==> Has(doc, Split(p)[|prefix|..][0]);
    }
  }

  /** The leaf lies below entry `i` or a later one. */
  predicate ListedFrom(doc: Json, prefix: seq<string>, p: string, i: nat) {
    && IsListed(doc, prefix, p) && p != "" && |Split(p)| > |prefix|
    && i <= Find(doc, Split(p)[|prefix|], 0) < Count(doc)
  }

  lemma ListedFromStep(doc: Json, prefix: seq<string>, p: string, i: nat)
    requires Plain(doc) && i < Count(doc)
    ensures ListedFrom(doc, prefix, p, i) <==>
            ListedFrom(doc, prefix, p, i + 1) || (IsListed(ValueAt(doc, i), prefix + [KeyAt(doc, i)], p) && p != "")
  {
    ListedBelow(doc, prefix, i, p);
    if |Split(p)| > |prefix| {
      FindIff(doc, i, Split(p)[|prefix|]);
    }
  }

  lemma FindIff(doc: Json, i: nat, key: string)
    requires Plain(doc) && i < Count(doc)
    ensures Find(doc, key, 0) == i <==> key == KeyAt(doc, i)
  {
    FindAt(doc, i);
  }

  lemma {:induction false} EntryLeavesAre(doc: Json, i: nat, prefix: seq<string>, p: string)
    requires Plain(doc) && ArePlainKeys(prefix) && i <= Count(doc)
    ensures p in EntryLeaves(doc, i, Join(prefix)) <==> ListedFrom(doc, prefix, p, i)
    decreases doc, Count(doc) - i
  {
    if i < Count(doc) {
      JoinExtend(prefix, KeyAt(doc, i));
      LeafPathsAre(ValueAt(doc, i), prefix + [KeyAt(doc, i)], p);
      EntryLeavesAre(doc, i + 1, prefix, p);
      ListedFromStep(doc, prefix, p, i);
    }
  }

  /** Array indices are plain keys without any assumption, so `Plain` asks something of object keys only. */
  lemma ArrayKeysArePlain(items: seq<Json>)
    requires forall i | 0 <= i < |items| :: Plain(items[i])
    ensures Plain(Arr(items))
  {
    var doc := Arr(items);
    forall i | 0 <= i < Count(doc) ensures IsPlainKey(KeyAt(doc, i)) {
      NumberOfDec(i);
      assert AllDigits(Dec(i));
    }
    forall i, j | 0 <= i < j < Count(doc) ensures KeyAt(doc, i) != KeyAt(doc, j) {
      if Dec(i) == Dec(j) {
        DecInjective(i, j);
      }
    }
  }

  lemma {:induction false} ReachedKeysArePlain(doc: Json, path: seq<string>)
    requires Plain(doc) && Reaches(doc, path)
    ensures ArePlainKeys(path)
    decreases |path|
  {
    if path != [] {
      ReachedKeysArePlain(Child(doc, path[0]), path[1..]);
      assert path == [path[0]] + path[1..];
    }
  }

  /** Every leaf below the root is listed under its dotted name, and nothing else is. */
  lemma LeafIsListedIff(doc: Json, path: seq<string>)
    requires Plain(doc) && path != []
    ensures IsLeafPath(doc, path) <==> ArePlainKeys(path) && Join(path) in LeafPaths(doc, "")
  {
    if ArePlainKeys(path) || Reaches(doc, path) {
      if Reaches(doc, path) {
        ReachedKeysArePlain(doc, path);
      }
      SplitJoin(path);
      LeafPathsAre(doc, [], Join(path));
      assert path[0..] == path && Join([]) == "";
    }
  }

  lemma ListedNamesALeaf(doc: Json, p: string)
    requires Plain(doc) && p in LeafPaths(doc, "")
    ensures IsLeafPath(doc, Split(p)) && Join(Split(p)) == p
  {
    LeafPathsAre(doc, [], p);
    assert Split(p)[0..] == Split(p) && Join([]) == "";
  }

  lemma {:induction false} ListedOnceFrom(doc: Json, i: nat, prefix: seq<string>)
    requires Plain(doc) && ArePlainKeys(prefix) && i <= Count(doc)
    ensures Distinct(EntryLeaves(doc, i, Join(prefix)))
    decreases doc, Count(doc) - i
  {
    if i < Count(doc) {
      var key := KeyAt(doc, i);
      JoinExtend(prefix, key);
      var here, later := LeafPaths(ValueAt(doc, i), Extend(Join(prefix), key)), EntryLeaves(doc, i + 1, Join(prefix));
      if Count(ValueAt(doc, i)) > 0 {
        ListedOnceFrom(ValueAt(doc, i), 0, prefix + [key]);
      }
      ListedOnceFrom(doc, i + 1, prefix);
      forall p | p in here ensures p !in later {
        LeafPathsAre(ValueAt(doc, i), prefix + [key], p);
        ListedBelow(doc, prefix, i, p);
        FindAt(doc, i);
        EntryLeavesAre(doc, i + 1, prefix, p);
      }
      DistinctAppend(here, later);
    }
  }

  lemma DistinctAppend(s: seq<string>, t: seq<string>)
    requires Distinct(s) && Distinct(t) && forall p | p in s :: p !in t
    ensures Distinct(s + t)
  {
    forall i, j | 0 <= i < j < |s + t| ensures (s + t)[i] != (s + t)[j] {
      if i < |s| <= j {
        assert s[i] in s && t[j - |s|] in t;
      }
    }
  }

  lemma LeavesAreListedOnce(doc: Json)
    requires Plain(doc)
    ensures Distinct(LeafPaths(doc, ""))
  {
    assert Join([]) == "";
    if Count(doc) > 0 {
      ListedOnceFrom(doc, 0, []);
    }
  }

  // ---- getAtPath ----

  function FindIndex(number: string -> Option<nat>, node: Json, head: string): (k: nat)
    ensures k <= Count(node)
  {
    if node.Arr? then
      var n := number(head);
      if n.Some? && n.value < Count(node) then n.value else Count(node)
    else Find(node, head, 0)
  }

  function GetSegments(number: string -> Option<nat>, node: Json, segments: seq<string>): Option<Json>
    decreases |segments|, 0
  {
    if segments == [] then Some(node)
    else if IsScalar(node) then None
    else if segments[0] == STAR then Some(Arr(FanOut(number, node, segments[1..], 0)))
    else
      var k := FindIndex(number, node, segments[0]);
      if k == Count(node) then None else GetSegments(number, ValueAt(node, k), segments[1..])
  }

  /** The matches below the entries from `i` on. */
  function FanOut(number: string -> Option<nat>, node: Json, rest: seq<string>, i: nat): seq<Json>
    requires i <= Count(node)
    decreases |rest|, 1, Count(node) - i
  {
    if i == Count(node) then []
    else
      Prepended(GetSegments(number, ValueAt(node, i), rest), FanOut(number, node, rest, i + 1))
  }

  function GetAtPath(number: string -> Option<nat>, doc: Json, path: string): Option<Json> {
    GetSegments(number, doc, Split(path))
  }

  ghost predicate ReadsIndices(number: string -> Option<nat>) {
    forall n: nat :: number(Dec(n)) == Some(n)
  }

  lemma {:induction false} GetReached(number: string -> Option<nat>, doc: Json, path: seq<string>)
    requires ReadsIndices(number) && Plain(doc) && Reaches(doc, path)
    ensures GetSegments(number, doc, path) == Some(At(doc, path))
    decreases |path|
  {
    if path != [] {
      GetReached(number, Child(doc, path[0]), path[1..]);
    }
  }

  /** Reading a listed path gives the leaf it was listed for. */
  lemma ListedPathsRead(number: string -> Option<nat>, doc: Json, p: string)
    requires ReadsIndices(number) && Plain(doc) && p in LeafPaths(doc, "")
    ensures IsLeafPath(doc, Split(p)) && GetAtPath(number, doc, p) == Some(At(doc, Split(p)))
  {
    ListedNamesALeaf(doc, p);
    GetReached(number, doc, Split(p));
  }

  // ---- what a path reads when one leaf changes ----

  /** The document with the node at `path` replaced. */
  function Put(doc: Json, path: seq<string>, v: Json): Json
    requires Reaches(doc, path)
    decreases |path|
  {
    if path == [] then v
    else PutAt(doc, Find(doc, path[0], 0), Put(Child(doc, path[0]), path[1..], v))
  }

  function PutAt(doc: Json, k: nat, v: Json): Json
    requires k < Count(doc)
  {
    match doc
    case Arr(items) => Arr(items[k := v])
    case Obj(fields) => Obj(fields[k := Field(fields[k].key, v)])
  }

  lemma PutAtEntries(doc: Json, k: nat, v: Json)
    requires k < Count(doc)
    ensures Count(PutAt(doc, k, v)) == Count(doc)
    ensures forall i | 0 <= i < Count(doc) ::
              && KeyAt(PutAt(doc, k, v), i) == KeyAt(doc, i)
              && ValueAt(PutAt(doc, k, v), i) == if i == k then v else ValueAt(doc, i)
  {
  }

  lemma {:induction false} SameKeysSameFind(doc: Json, other: Json, key: string, i: nat)
    requires Count(other) == Count(doc) && i <= Count(doc)
    requires forall j | 0 <= j < Count(doc) :: KeyAt(other, j) == KeyAt(doc, j)
    ensures Find(other, key, i) == Find(doc, key, i)
    decreases Count(doc) - i
  {
    if i < Count(doc) {
      SameKeysSameFind(doc, other, key, i + 1);
    }
  }

  /** A source names the node, one of its ancestors, or fans out over one of them. */
  predicate Covers(source: seq<string>, path: seq<string>) {
    && |source| <= |path|
    && forall i | 0 <= i < |source| :: source[i] == STAR || source[i] == path[i]
  }

  lemma CoversStep(source: seq<string>, path: seq<string>)
    requires source != [] && path != []
    ensures Covers(source, path) <==> (source[0] == STAR || source[0] == path[0]) && Covers(source[1..], path[1..])
  {
    if (source[0] == STAR || source[0] == path[0]) && Covers(source[1..], path[1..]) {
      forall i | 0 <= i < |source| ensures source[i] == STAR || source[i] == path[i] {
        assert i > 0 ==> source[i] == source[1..][i - 1] && path[i] == path[1..][i - 1];
      }
    }
  }

  /** The segments that name an array index name it in its canonical spelling. */
  ghost predicate IsCanonical(number: string -> Option<nat>, source: seq<string>) {
    forall i | 0 <= i < |source| :: number(source[i]).Some? ==> source[i] == Dec(number(source[i]).value)
  }

  lemma IndexOfKey(number: string -> Option<nat>, doc: Json, head: string, key: string)
    requires ReadsIndices(number) && Has(doc, key)
    requires number(head).Some? ==> head == Dec(number(head).value)
    ensures FindIndex(number, doc, head) == Find(doc, key, 0) <==> head == key
  {
    if doc.Arr? {
      assert number(key) == Some(Find(doc, key, 0));
    }
  }

  lemma {:induction false} FanOutHas(number: string -> Option<nat>, node: Json, rest: seq<string>, i: nat, k: nat)
    requires i <= k < Count(node) && GetSegments(number, ValueAt(node, k), rest).Some?
    ensures GetSegments(number, ValueAt(node, k), rest).value in FanOut(number, node, rest, i)
    decreases Count(node) - i
  {
    if i < k {
      FanOutHas(number, node, rest, i + 1, k);
    }
  }

  /** A source that covers a node of the document reads something. */
  lemma {:induction false} CoveringReads(number: string -> Option<nat>, doc: Json, source: seq<string>, path: seq<string>)
    requires ReadsIndices(number) && IsCanonical(number, source) && Reaches(doc, path) && Covers(source, path)
    ensures GetSegments(number, doc, source).Some?
    decreases |source|
  {
    if source != [] && source[0] != STAR {
      CoversStep(source, path);
      IndexOfKey(number, doc, source[0], path[0]);
      CoveringReads(number, Child(doc, path[0]), source[1..], path[1..]);
    }
  }

  /** Two nodes that differ in entry `k` only fan out alike exactly when that entry reads alike. */
  lemma {:induction false} FanOutDiffers(number: string -> Option<nat>, node: Json, other: Json, rest: seq<string>, i: nat, k: nat)
    requires Count(other) == Count(node) && i <= Count(node) && k < Count(node)
    requires forall j | 0 <= j < Count(node) && j != k :: ValueAt(other, j) == ValueAt(node, j)
    requires var was, now := GetSegments(number, ValueAt(node, k), rest), GetSegments(number, ValueAt(other, k), rest);
             was == now || (was.Some? && now.Some?)
    ensures FanOut(number, other, rest, i) == FanOut(number, node, rest, i)
       <==> i > k || GetSegments(number, ValueAt(other, k), rest) == GetSegments(number, ValueAt(node, k), rest)
    decreases Count(node) - i
  {
    if i < Count(node) {
      FanOutDiffers(number, node, other, rest, i + 1, k);
      var was, now := GetSegments(number, ValueAt(node, i), rest), GetSegments(number, ValueAt(other, i), rest);
      var wasLater, nowLater := FanOut(number, node, rest, i + 1), FanOut(number, other, rest, i + 1);
      SamePrepended(was, now, wasLater, nowLater);
    }
  }

  function Prepended(v: Option<Json>, later: seq<Json>): seq<Json> {
    (if v.Some? then [v.value] else []) + later
  }

  lemma SamePrepended(was: Option<Json>, now: Option<Json>, wasLater: seq<Json>, nowLater: seq<Json>)
    requires was == now || (was.Some? && now.Some?)
    ensures Prepended(was, wasLater) == Prepended(now, nowLater) <==> was == now && wasLater == nowLater
  {
    assert was.None? ==> Prepended(was, wasLater) == wasLater && Prepended(now, nowLater) == nowLater;
    if was.Some? {
      assert Prepended(was, wasLater)[0] == was.value && Prepended(was, wasLater)[1..] == wasLater;
      assert Prepended(now, nowLater)[0] == now.value && Prepended(now, nowLater)[1..] == nowLater;
    }
  }

  lemma {:induction false} PutChanges(doc: Json, path: seq<string>, v: Json)
    requires Reaches(doc, path)
    ensures Put(doc, path, v) == doc <==> v == At(doc, path)
    decreases |path|
  {
    if path != [] {
      PutChanges(Child(doc, path[0]), path[1..], v);
    }
  }

  /** Changing one scalar is seen through exactly the sources that cover it. */
  lemma {:induction false} SeenIffCovered(number: string -> Option<nat>, doc: Json, path: seq<string>, v: Json, source: seq<string>)
    requires ReadsIndices(number) && IsCanonical(number, source) && Reaches(doc, path)
    requires IsScalar(At(doc, path)) && IsScalar(v) && v != At(doc, path)
    ensures GetSegments(number, Put(doc, path, v), source) == GetSegments(number, doc, source) <==> !Covers(source, path)
    decreases |source|
  {
    if source == [] {
      PutChanges(doc, path, v);
    } else if path != [] {
      CoversStep(source, path);
      SeenIffCovered(number, Child(doc, path[0]), path[1..], v, source[1..]);
      if source[0] == STAR {
        SeenThroughStar(number, doc, path, v, source[1..]);
        assert [STAR] + source[1..] == source;
      } else {
        SeenThroughName(number, doc, path, v, source);
      }
    }
  }

  /** Whether the changed value of the first entry of `path` reads differently below that entry. */
  predicate SeenBelow(number: string -> Option<nat>, doc: Json, path: seq<string>, v: Json, rest: seq<string>)
    requires path != [] && Reaches(doc, path)
  {
    var was := Child(doc, path[0]);
    GetSegments(number, Put(was, path[1..], v), rest) != GetSegments(number, was, rest)
  }

  lemma SeenThroughStar(number: string -> Option<nat>, doc: Json, path: seq<string>, v: Json, rest: seq<string>)
    requires ReadsIndices(number) && IsCanonical(number, rest) && path != [] && Reaches(doc, path)
    requires SeenBelow(number, doc, path, v, rest) ==> Covers(rest, path[1..])
    ensures GetSegments(number, Put(doc, path, v), [STAR] + rest) == GetSegments(number, doc, [STAR] + rest)
       <==> !SeenBelow(number, doc, path, v, rest)
  {
    var k := Find(doc, path[0], 0);
    var was, now := Child(doc, path[0]), Put(Child(doc, path[0]), path[1..], v);
    PutAtEntries(doc, k, now);
    if Covers(rest, path[1..]) {
      CoveringReads(number, was, rest, path[1..]);
      ReachesPut(was, path[1..], v);
      CoveringReads(number, now, rest, path[1..]);
    }
    FanOutDiffers(number, doc, Put(doc, path, v), rest, 0, k);
    assert ([STAR] + rest)[1..] == rest;
  }

  lemma SeenThroughName(number: string -> Option<nat>, doc: Json, path: seq<string>, v: Json, source: seq<string>)
    requires ReadsIndices(number) && IsCanonical(number, source) && path != [] && Reaches(doc, path)
    requires source != [] && source[0] != STAR
    ensures GetSegments(number, Put(doc, path, v), source) == GetSegments(number, doc, source)
       <==> !(source[0] == path[0] && SeenBelow(number, doc, path, v, source[1..]))
  {
    var k := Find(doc, path[0], 0);
    var now := Put(Child(doc, path[0]), path[1..], v);
    PutAtEntries(doc, k, now);
    SameKeysSameFind(doc, Put(doc, path, v), source[0], 0);
    IndexOfKey(number, doc, source[0], path[0]);
  }

  lemma {:induction false} ReachesPut(doc: Json, path: seq<string>, v: Json)
    requires Reaches(doc, path)
    ensures Reaches(Put(doc, path, v), path) && At(Put(doc, path, v), path) == v
    decreases |path|
  {
    if path != [] {
      var k := Find(doc, path[0], 0);
      var now := Put(Child(doc, path[0]), path[1..], v);
      PutAtEntries(doc, k, now);
      SameKeysSameFind(doc, PutAt(doc, k, now), path[0], 0);
      ReachesPut(Child(doc, path[0]), path[1..], v);
    }
  }

  lemma {:induction false} PutKeepsLeaves(doc: Json, path: seq<string>, v: Json, prefix: string)
    requires IsLeafPath(doc, path) && Count(v) == 0
    ensures LeafPaths(Put(doc, path, v), prefix) == LeafPaths(doc, prefix)
    decreases |path|
  {
    if path != [] {
      var k := Find(doc, path[0], 0);
      var now := Put(Child(doc, path[0]), path[1..], v);
      PutAtEntries(doc, k, now);
      PutKeepsLeaves(Child(doc, path[0]), path[1..], v, Extend(prefix, KeyAt(doc, k)));
      SameEntryLeaves(doc, PutAt(doc, k, now), 0, prefix);
    }
  }

  lemma {:induction false} SameEntryLeaves(doc: Json, other: Json, i: nat, prefix: string)
    requires Count(other) == Count(doc) && i <= Count(doc)
    requires forall j | 0 <= j < Count(doc) ::
               && KeyAt(other, j) == KeyAt(doc, j)
               && LeafPaths(ValueAt(other, j), Extend(prefix, KeyAt(doc, j))) == LeafPaths(ValueAt(doc, j), Extend(prefix, KeyAt(doc, j)))
    ensures EntryLeaves(other, i, prefix) == EntryLeaves(doc, i, prefix)
    decreases Count(doc) - i
  {
    if i < Count(doc) {
      SameEntryLeaves(doc, other, i + 1, prefix);
    }
  }

  lemma {:induction false} SplitInjective(s: string, t: string)
    requires Split(s) == Split(t)
    ensures s == t
  {
    if s != "" {
      SplitHead(s);
    }
    if t != "" {
      SplitHead(t);
    }
    if s != "" && t != "" {
      assert s[0] == t[0];
      SplitInjective(s[1..], t[1..]);
      assert s == [s[0]] + s[1..] && t == [t[0]] + t[1..];
    }
  }

  lemma SplitHead(s: string)
    requires s != ""
    ensures s[0] == '.' ==> Split(s)[0] == "" && Split(s)[1..] == Split(s[1..])
    ensures s[0] != '.' ==> Split(s) == [[s[0]] + Split(s[1..])[0]] + Split(s[1..])[1..]
    ensures s[0] != '.' ==> Split(s[1..]) == [Split(s)[0][1..]] + Split(s)[1..]
    ensures s[0] == '.' <==> Split(s)[0] == ""
    ensures s[0] == '.' ==> |Split(s)| > 1
    ensures s[0] != '.' ==> Split(s)[0][0] == s[0]
  {
  }

  lemma {:induction false} SegmentChars(s: string, i: nat, c: char)
    requires i < |Split(s)| && c in Split(s)[i]
    ensures c in s
  {
    if s != "" {
      if s[0] == '.' {
        if i > 0 {
          SegmentChars(s[1..], i - 1, c);
        }
      } else if i > 0 || c != s[0] {
        SegmentChars(s[1..], i, c);
      }
    }
  }

  // ---- sources that stop above a leaf ----

  function Stars(source: seq<string>): nat {
    if source == [] then 0 else (if source[0] == STAR then 1 else 0) + Stars(source[1..])
  }

  /** Scalars under `depth` levels of wildcard arrays. */
  predicate IsFlat(v: Json, depth: nat)
    decreases depth
  {
    if depth == 0 then IsScalar(v)
    else v.Arr? && forall i | 0 <= i < |v.items| :: IsFlat(v.items[i], depth - 1)
  }

  /** A source that stops above a node does not read scalars only. */
  lemma {:induction false} StoppingAboveIsNotFlat(number: string -> Option<nat>, doc: Json, source: seq<string>, path: seq<string>)
    requires ReadsIndices(number) && IsCanonical(number, source) && Reaches(doc, path)
    requires Covers(source, path) && |source| < |path|
    ensures GetSegments(number, doc, source).Some? && !IsFlat(GetSegments(number, doc, source).value, Stars(source))
    decreases |source|
  {
    if source != [] {
      CoversStep(source, path);
      StoppingAboveIsNotFlat(number, Child(doc, path[0]), source[1..], path[1..]);
      if source[0] == STAR {
        var read := GetSegments(number, Child(doc, path[0]), source[1..]).value;
        var all := FanOut(number, doc, source[1..], 0);
        FanOutHas(number, doc, source[1..], 0, Find(doc, path[0], 0));
        assert read in all;
      } else {
        IndexOfKey(number, doc, source[0], path[0]);
      }
    }
  }
}

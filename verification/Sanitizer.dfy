/**
 * The audit-metadata sanitiser: a depth-first copy of an object graph that may be
 * shared or cyclic, with secrets removed at every depth.
 */
module Sanitizer {
  import opened Common

  /** What a variable can hold; objects are references into a heap. */
  datatype Value =
    | Null | Undefined | Function
    | Bool(b: bool) | Text(s: string) | Number(n: int) | NotFinite | BigInt(digits: string)
    | Ref(id: nat)

  datatype Property = Property(key: string, value: Value)

  /** `Wrapper` is an object with a `toJSON` method, here by the value that method returns. */
  datatype Node = Date(iso: string) | Array(items: seq<Value>) | Wrapper(json: Value) |
      Record(properties: seq<Property>)

  type Heap = map<nat, Node>

  datatype Field = Field(key: string, value: Json)
  datatype Json = JNull | JBool(b: bool) | JNumber(n: int) | JText(s: string) | JArray(items: seq<Json>) |
      JObject(fields: seq<Field>)

  const MAX_DEPTH: nat := 8

  const DENIED: set<string> := {
    "password", "newpassword", "currentpassword", "confirmpassword", "token", "accesstoken",
    "refreshtoken", "tokenhash", "secret", "signature", "authorization"
  }

  /** Of all other characters only the Kelvin sign has a small letter among a to z. */
  function LowerChar(c: char): char {
    if 'A' <= c <= 'Z' then c - 'A' + 'a' else if c == '\U{212A}' then 'k' else c
  }

  function Lower(s: string): string {
    seq(|s|, i requires 0 <= i < |s| => LowerChar(s[i]))
  }

  predicate IsSensitive(key: string) {
    Lower(key) in DENIED
  }

  // ---- the specification ------------------------------------------------------------

  function Children(n: Node): set<nat> {
    match n
    case Date(_) => {}
    case Array(items) => set i | 0 <= i < |items| && items[i].Ref? :: items[i].id
    case Wrapper(json) => if json.Ref? then {json.id} else {}
    case Record(properties) => set i | 0 <= i < |properties| && properties[i].value.Ref? :: properties[i].value.id
  }

  ghost predicate Closed(h: Heap) {
    forall id :: id in h ==> Children(h[id]) <= h.Keys
  }

  predicate Points(h: Heap, v: Value) {
    v.Ref? ==> v.id in h
  }

  function Primitive(v: Value): Option<Json>
    requires !v.Ref?
  {
    match v
    case Null => Some(JNull)
    case Undefined => None
    case Function => None
    case Bool(b) => Some(JBool(b))
    case Text(s) => Some(JText(s))
    case Number(n) => Some(JNumber(n))
    case NotFinite => Some(JNull)
    case BigInt(digits) => Some(JText(digits))
  }

  function OrNull(j: Option<Json>): Json {
    if j.Some? then j.value else JNull
  }

  /** `sanitizeValue`; `seen` are the objects on the path from the root. */
  function Sanitize(h: Heap, v: Value, depth: nat, seen: set<nat>): Option<Json>
    requires Closed(h) && Points(h, v) && depth <= MAX_DEPTH
    decreases MAX_DEPTH - depth, 2, 0
  {
    if !v.Ref? then Primitive(v)
    else if h[v.id].Date? then Some(JText(h[v.id].iso))
    else if depth >= MAX_DEPTH then Some(JText("[truncated]"))
    else if v.id in seen then Some(JText("[circular]"))
    else
      var inner := seen + {v.id};
      assert Children(h[v.id]) <= h.Keys;
      match h[v.id]
      case Array(items) =>
        assert forall i :: 0 <= i < |items| ==> Points(h, items[i]);
        Some(JArray(SanitizeItems(h, items, depth + 1, inner)))
      case Wrapper(json) => Some(OrNull(Sanitize(h, json, depth + 1, inner)))
      case Record(properties) =>
        assert forall i :: 0 <= i < |properties| ==> Points(h, properties[i].value);
        Some(JObject(SanitizeProperties(h, properties, depth + 1, inner)))
  }

  function SanitizeItems(h: Heap, items: seq<Value>, depth: nat, seen: set<nat>): (r: seq<Json>)
    requires Closed(h) && (forall i :: 0 <= i < |items| ==> Points(h, items[i])) && depth <= MAX_DEPTH
    ensures |r| == |items|
    decreases MAX_DEPTH - depth, 3, |items|
  {
    if items == [] then []
    else
      var n := |items| - 1;
      SanitizeItems(h, items[..n], depth, seen) + [OrNull(Sanitize(h, items[n], depth, seen))]
  }

  function SanitizeProperties(h: Heap, properties: seq<Property>, depth: nat, seen: set<nat>): seq<Field>
    requires Closed(h) && (forall i :: 0 <= i < |properties| ==> Points(h, properties[i].value)) && depth <= MAX_DEPTH
    decreases MAX_DEPTH - depth, 3, |properties|
  {
    if properties == [] then []
    else
      var n := |properties| - 1;
      var rest := SanitizeProperties(h, properties[..n], depth, seen);
      if IsSensitive(properties[n].key) then rest
      else
        var clean := Sanitize(h, properties[n].value, depth, seen);
        if clean == None then rest else rest + [Field(properties[n].key, clean.value)]
  }

  /** `sanitizeMetadata`: an empty object is not worth storing. */
  function SanitizeMetadata(h: Heap, v: Value): Option<Json>
    requires Closed(h) && Points(h, v)
  {
    var j := Sanitize(h, v, 0, {});
    if j == Some(JObject([])) then None else j
  }

  // ---- no secrets, bounded height ------------------------------------------------------

  /** No denied key anywhere inside. */
  predicate NoSecrets(j: Json) {
    match j
    case JArray(items) => forall i :: 0 <= i < |items| ==> NoSecrets(items[i])
    case JObject(fields) => forall i :: 0 <= i < |fields| ==> !IsSensitive(fields[i].key) && NoSecrets(fields[i].value)
    case _ => true
  }

  /** At most `limit` levels of arrays and objects. */
  predicate Within(j: Json, limit: nat) {
    match j
    case JArray(items) => limit > 0 && forall i :: 0 <= i < |items| ==> Within(items[i], limit - 1)
    case JObject(fields) => limit > 0 && forall i :: 0 <= i < |fields| ==> Within(fields[i].value, limit - 1)
    case _ => true
  }

  lemma {:induction false} HigherLimit(j: Json, limit: nat)
    requires Within(j, limit)
    ensures Within(j, limit + 1)
  {
    match j {
      case JArray(items) =>
        forall i | 0 <= i < |items| ensures Within(items[i], limit) { HigherLimit(items[i], limit - 1); }
      case JObject(fields) =>
        forall i | 0 <= i < |fields| ensures Within(fields[i].value, limit) { HigherLimit(fields[i].value, limit - 1); }
      case _ =>
    }
  }

  /** The output of every graph, cyclic or not, holds no denied key at any depth and at most eight levels. */
  lemma {:induction false} OutputIsSafe(h: Heap, v: Value, depth: nat, seen: set<nat>)
    requires Closed(h) && Points(h, v) && depth <= MAX_DEPTH
    ensures var j := Sanitize(h, v, depth, seen); j.Some? ==> NoSecrets(j.value) && Within(j.value, MAX_DEPTH - depth)
    decreases MAX_DEPTH - depth, 2, 0
  {
    if v.Ref? && !h[v.id].Date? && depth < MAX_DEPTH && v.id !in seen {
      var inner := seen + {v.id};
      assert Children(h[v.id]) <= h.Keys;
      match h[v.id] {
        case Array(items) =>
          assert forall i :: 0 <= i < |items| ==> Points(h, items[i]);
          ItemsAreSafe(h, items, depth + 1, inner);
        case Wrapper(json) =>
          OutputIsSafe(h, json, depth + 1, inner);
          HigherLimit(OrNull(Sanitize(h, json, depth + 1, inner)), MAX_DEPTH - depth - 1);
        case Record(properties) =>
          assert forall i :: 0 <= i < |properties| ==> Points(h, properties[i].value);
          PropertiesAreSafe(h, properties, depth + 1, inner);
          SafeObject(SanitizeProperties(h, properties, depth + 1, inner), MAX_DEPTH - depth - 1);
      }
    }
  }

  lemma {:induction false} ItemsAreSafe(h: Heap, items: seq<Value>, depth: nat, seen: set<nat>)
    requires Closed(h) && (forall i :: 0 <= i < |items| ==> Points(h, items[i])) && depth <= MAX_DEPTH
    ensures forall i :: 0 <= i < |items| ==>
      NoSecrets(SanitizeItems(h, items, depth, seen)[i]) &&
        Within(SanitizeItems(h, items, depth, seen)[i], MAX_DEPTH - depth)
    decreases MAX_DEPTH - depth, 3, |items|
  {
    if items != [] {
      var n := |items| - 1;
      ItemsAreSafe(h, items[..n], depth, seen);
      OutputIsSafe(h, items[n], depth, seen);
    }
  }

  lemma {:induction false} PropertiesAreSafe(h: Heap, properties: seq<Property>, depth: nat, seen: set<nat>)
    requires Closed(h) && (forall i :: 0 <= i < |properties| ==> Points(h, properties[i].value)) && depth <= MAX_DEPTH
    ensures SafeFields(SanitizeProperties(h, properties, depth, seen), MAX_DEPTH - depth)
    decreases MAX_DEPTH - depth, 3, |properties|
  {
    if properties != [] {
      var n := |properties| - 1;
      PropertiesAreSafe(h, properties[..n], depth, seen);
      OutputIsSafe(h, properties[n].value, depth, seen);
      var rest, clean := SanitizeProperties(h, properties[..n], depth, seen),
        Sanitize(h, properties[n].value, depth, seen);
      if !IsSensitive(properties[n].key) && clean.Some? {
        OneMoreField(rest, Field(properties[n].key, clean.value), MAX_DEPTH - depth);
      }
    }
  }

  predicate SafeFields(fields: seq<Field>, limit: nat) {
    forall i :: 0 <= i < |fields| ==>
      !IsSensitive(fields[i].key) && NoSecrets(fields[i].value) && Within(fields[i].value, limit)
  }

  lemma {:induction false} OneMoreField(fields: seq<Field>, f: Field, limit: nat)
    requires SafeFields(fields, limit) && !IsSensitive(f.key) && NoSecrets(f.value) && Within(f.value, limit)
    ensures SafeFields(fields + [f], limit)
  {
  }

  lemma {:induction false} SafeObject(fields: seq<Field>, limit: nat)
    requires SafeFields(fields, limit)
    ensures NoSecrets(JObject(fields)) && Within(JObject(fields), limit + 1)
  {
  }

  // ---- sharing -----------------------------------------------------------------------------

  /** The plain copy of the unfolded tree: no bookkeeping of visited objects at all. */
  function Unfold(h: Heap, v: Value, depth: nat): Option<Json>
    requires Closed(h) && Points(h, v) && depth <= MAX_DEPTH
    decreases MAX_DEPTH - depth, 2, 0
  {
    if !v.Ref? then Primitive(v)
    else if h[v.id].Date? then Some(JText(h[v.id].iso))
    else if depth >= MAX_DEPTH then Some(JText("[truncated]"))
    else
      assert Children(h[v.id]) <= h.Keys;
      match h[v.id]
      case Array(items) =>
        assert forall i :: 0 <= i < |items| ==> Points(h, items[i]);
        Some(JArray(UnfoldItems(h, items, depth + 1)))
      case Wrapper(json) => Some(OrNull(Unfold(h, json, depth + 1)))
      case Record(properties) =>
        assert forall i :: 0 <= i < |properties| ==> Points(h, properties[i].value);
        Some(JObject(UnfoldProperties(h, properties, depth + 1)))
  }

  function UnfoldItems(h: Heap, items: seq<Value>, depth: nat): (r: seq<Json>)
    requires Closed(h) && (forall i :: 0 <= i < |items| ==> Points(h, items[i])) && depth <= MAX_DEPTH
    ensures |r| == |items|
    decreases MAX_DEPTH - depth, 3, |items|
  {
    if items == [] then []
    else UnfoldItems(h, items[..|items| - 1], depth) + [OrNull(Unfold(h, items[|items| - 1], depth))]
  }

  function UnfoldProperties(h: Heap, properties: seq<Property>, depth: nat): seq<Field>
    requires Closed(h) && (forall i :: 0 <= i < |properties| ==> Points(h, properties[i].value)) && depth <= MAX_DEPTH
    decreases MAX_DEPTH - depth, 3, |properties|
  {
    if properties == [] then []
    else
      var n := |properties| - 1;
      var rest := UnfoldProperties(h, properties[..n], depth);
      if IsSensitive(properties[n].key) then rest
      else
        var clean := Unfold(h, properties[n].value, depth);
        if clean == None then rest else rest + [Field(properties[n].key, clean.value)]
  }

  /** An acyclic graph: some ranking falls along every reference. */
  ghost predicate Ranked(h: Heap, rank: map<nat, nat>) {
    Closed(h) && rank.Keys == h.Keys && forall id, child :: id in h && child in Children(h[id]) ==>
      rank[child] < rank[id]
  }

  /** Everything on the path ranks higher than the value. */
  ghost predicate Above(h: Heap, rank: map<nat, nat>, seen: set<nat>, v: Value) {
    Points(h, v) && rank.Keys == h.Keys && seen <= h.Keys && (v.Ref? ==> forall s :: s in seen ==> rank[v.id] < rank[s])
  }

  /** On an acyclic graph, however much is shared, the visited set changes nothing. */
  lemma {:induction false} SharingIsHarmless(h: Heap, rank: map<nat, nat>, v: Value, depth: nat, seen: set<nat>)
    requires Ranked(h, rank) && Above(h, rank, seen, v) && depth <= MAX_DEPTH
    ensures Sanitize(h, v, depth, seen) == Unfold(h, v, depth)
    decreases MAX_DEPTH - depth, 2, 0
  {
    if v.Ref? && !h[v.id].Date? && depth < MAX_DEPTH {
      assert v.id !in seen;
      var inner := seen + {v.id};
      assert Children(h[v.id]) <= h.Keys;
      match h[v.id] {
        case Array(items) =>
          forall i | 0 <= i < |items| ensures Points(h, items[i]) && Above(h, rank, inner, items[i]) {
            assert items[i].Ref? ==> items[i].id in Children(h[v.id]);
          }
          SharedItems(h, rank, items, depth + 1, inner);
        case Wrapper(json) =>
          assert json.Ref? ==> json.id in Children(h[v.id]);
          SharingIsHarmless(h, rank, json, depth + 1, inner);
        case Record(properties) =>
          forall i | 0 <= i < |properties|
            ensures Points(h, properties[i].value) && Above(h, rank, inner, properties[i].value)
          {
            assert properties[i].value.Ref? ==> properties[i].value.id in Children(h[v.id]);
          }
          SharedProperties(h, rank, properties, depth + 1, inner);
      }
    }
  }

  lemma {:induction false} SharedItems(h: Heap, rank: map<nat, nat>, items: seq<Value>, depth: nat, seen: set<nat>)
    requires Ranked(h, rank) && depth <= MAX_DEPTH && forall i :: 0 <= i < |items| ==>
      Points(h, items[i]) && Above(h, rank, seen, items[i])
    ensures SanitizeItems(h, items, depth, seen) == UnfoldItems(h, items, depth)
    decreases MAX_DEPTH - depth, 3, |items|
  {
    if items != [] {
      SharedItems(h, rank, items[..|items| - 1], depth, seen);
      SharingIsHarmless(h, rank, items[|items| - 1], depth, seen);
    }
  }

  lemma {:induction false} SharedProperties(h: Heap, rank: map<nat, nat>, properties: seq<Property>, depth: nat,
      seen: set<nat>)
    requires Ranked(h, rank) && depth <= MAX_DEPTH
    requires forall i :: 0 <= i < |properties| ==>
      Points(h, properties[i].value) && Above(h, rank, seen, properties[i].value)
    ensures SanitizeProperties(h, properties, depth, seen) == UnfoldProperties(h, properties, depth)
    decreases MAX_DEPTH - depth, 3, |properties|
  {
    if properties != [] {
      var n := |properties| - 1;
      SharedProperties(h, rank, properties[..n], depth, seen);
      SharingIsHarmless(h, rank, properties[n].value, depth, seen);
    }
  }

  /** Every property whose key is not denied is kept under its sanitised value. */
  lemma {:induction false} KeepsProperty(h: Heap, properties: seq<Property>, i: nat, depth: nat, seen: set<nat>)
    requires Closed(h) && (forall k :: 0 <= k < |properties| ==> Points(h, properties[k].value)) && depth <= MAX_DEPTH
    requires i < |properties| && !IsSensitive(properties[i].key)
    ensures var clean := Sanitize(h, properties[i].value, depth, seen);
      clean.Some? ==> Field(properties[i].key, clean.value) in SanitizeProperties(h, properties, depth, seen)
  {
    var n := |properties| - 1;
    if i < n {
      KeepsProperty(h, properties[..n], i, depth, seen);
    } else {
      assert properties[..n] + [properties[n]] == properties;
    }
  }

  /** A reference back to an object on the path, the object itself included, is cut and not unfolded. */
  lemma {:induction false} BackReferenceIsCut(h: Heap, id: nat, i: nat, ancestor: nat, depth: nat, seen: set<nat>)
    requires Closed(h) && id in h && h[id].Record? && depth < MAX_DEPTH && id !in seen
    requires i < |h[id].properties| && h[id].properties[i].value == Ref(ancestor) &&
      !IsSensitive(h[id].properties[i].key)
    requires ancestor in seen + {id} && ancestor in h && !h[ancestor].Date?
    ensures Sanitize(h, Ref(id), depth, seen).Some? && Sanitize(h, Ref(id), depth, seen).value.JObject?
    ensures Field(h[id].properties[i].key, JText(if depth + 1 < MAX_DEPTH then "[circular]" else "[truncated]"))
         in Sanitize(h, Ref(id), depth, seen).value.fields
  {
    var properties, inner := h[id].properties, seen + {id};
    assert Children(h[id]) <= h.Keys;
    assert forall k :: 0 <= k < |properties| ==> Points(h, properties[k].value);
    KeepsProperty(h, properties, i, depth + 1, inner);
  }

  // ---- sanitising twice ------------------------------------------------------------------------

  /** The value is a heap copy of the JSON tree. */
  ghost predicate Represents(h: Heap, v: Value, j: Json)
    decreases j
  {
    match j
    case JNull => v == Null
    case JBool(b) => v == Bool(b)
    case JNumber(n) => v == Number(n)
    case JText(s) => v == Text(s)
    case JArray(items) =>
      && v.Ref? && v.id in h && h[v.id].Array? && |h[v.id].items| == |items|
      && forall i :: 0 <= i < |items| ==> Represents(h, h[v.id].items[i], items[i])
    case JObject(fields) =>
      && v.Ref? && v.id in h && h[v.id].Record? && |h[v.id].properties| == |fields|
      && forall i :: 0 <= i < |fields| ==>
         h[v.id].properties[i].key == fields[i].key && Represents(h, h[v.id].properties[i].value, fields[i].value)
  }

  /** A heap value represents at most one tree. */
  lemma {:induction false} OneTree(h: Heap, v: Value, j: Json, k: Json)
    requires Represents(h, v, j) && Represents(h, v, k)
    ensures j == k
    decreases j
  {
    match j {
      case JArray(items) =>
        forall i | 0 <= i < |items| ensures items[i] == k.items[i] {
          OneTree(h, h[v.id].items[i], items[i], k.items[i]);
        }
        assert items == k.items;
      case JObject(fields) =>
        forall i | 0 <= i < |fields| ensures fields[i] == k.fields[i] {
          OneTree(h, h[v.id].properties[i].value, fields[i].value, k.fields[i].value);
        }
        assert fields == k.fields;
      case _ =>
    }
  }

  function Width(j: Json): nat {
    match j
    case JArray(items) => |items|
    case JObject(fields) => |fields|
    case _ => 0
  }

  function Part(j: Json, i: nat): Json
    requires i < Width(j)
  {
    match j
    case JArray(items) => items[i]
    case JObject(fields) => fields[i].value
  }

  /** Arrays and objects inside, itself included. */
  function Size(j: Json): nat
    decreases j, Width(j) + 1
  {
    match j
    case JArray(_) => 1 + SizeOfParts(j, Width(j))
    case JObject(_) => 1 + SizeOfParts(j, Width(j))
    case _ => 0
  }

  function SizeOfParts(j: Json, n: nat): nat
    requires n <= Width(j)
    decreases j, n
  {
    if n == 0 then 0 else SizeOfParts(j, n - 1) + Size(Part(j, n - 1))
  }

  lemma {:induction false} PartIsSmaller(j: Json, i: nat, n: nat)
    requires i < n <= Width(j)
    ensures Size(Part(j, i)) <= SizeOfParts(j, n)
  {
    if i < n - 1 { PartIsSmaller(j, i, n - 1); }
  }

  /** Every object on the path represents a larger tree. */
  ghost predicate Enclosing(h: Heap, seen: set<nat>, size: nat) {
    forall s :: s in seen ==> LargerTree(h, s, size)
  }

  ghost predicate LargerTree(h: Heap, id: nat, size: nat) {
    exists k :: Represents(h, Ref(id), k) && Size(k) > size
  }

  lemma {:induction false} PathGrows(h: Heap, seen: set<nat>, id: nat, j: Json, size: nat)
    requires Enclosing(h, seen, Size(j)) && Represents(h, Ref(id), j) && size < Size(j)
    ensures Enclosing(h, seen + {id}, size)
  {
    forall s | s in seen + {id} ensures LargerTree(h, s, size) {
      if s == id { assert Represents(h, Ref(s), j) && Size(j) > size; } else {
        assert LargerTree(h, s, Size(j));
        var k :| Represents(h, Ref(s), k) && Size(k) > Size(j);
        assert Represents(h, Ref(s), k) && Size(k) > size;
      }
    }
  }

  lemma {:induction false} PartsAreEnclosed(h: Heap, seen: set<nat>, id: nat, j: Json)
    requires Enclosing(h, seen, Size(j)) && Represents(h, Ref(id), j)
    ensures forall i: nat :: i < Width(j) ==> Enclosing(h, seen + {id}, Size(Part(j, i)))
  {
    forall i: nat | i < Width(j) ensures Enclosing(h, seen + {id}, Size(Part(j, i))) {
      PartIsSmaller(j, i, Width(j));
      PathGrows(h, seen, id, j, Size(Part(j, i)));
    }
  }

  /** Clean output is a fixed point: sanitising any heap copy of it gives it back. */
  lemma {:induction false} CleanIsFixed(h: Heap, v: Value, j: Json, depth: nat, seen: set<nat>)
    requires Closed(h) && Points(h, v) && Represents(h, v, j) && NoSecrets(j)
    requires depth <= MAX_DEPTH && Within(j, MAX_DEPTH - depth) && Enclosing(h, seen, Size(j))
    ensures Sanitize(h, v, depth, seen) == Some(j)
    decreases MAX_DEPTH - depth, 2, 0
  {
    if v.Ref? {
      NotOnPath(h, v.id, j, seen);
      var inner := seen + {v.id};
      assert Children(h[v.id]) <= h.Keys;
      PartsAreEnclosed(h, seen, v.id, j);
      match j {
        case JArray(items) =>
          forall i | 0 <= i < |items| ensures CleanPart(h, h[v.id].items[i], items[i], depth + 1, inner) {
            assert items[i] == Part(j, i);
          }
          FixedItems(h, h[v.id].items, items, depth + 1, inner);
        case JObject(fields) =>
          forall i | 0 <= i < |fields| ensures CleanField(h, h[v.id].properties[i], fields[i], depth + 1, inner) {
            assert fields[i].value == Part(j, i);
          }
          FixedFields(h, h[v.id].properties, fields, depth + 1, inner);
      }
    }
  }

  lemma {:induction false} NotOnPath(h: Heap, id: nat, j: Json, seen: set<nat>)
    requires Represents(h, Ref(id), j) && Enclosing(h, seen, Size(j))
    ensures id !in seen
  {
    if id in seen {
      assert LargerTree(h, id, Size(j));
      var k :| Represents(h, Ref(id), k) && Size(k) > Size(j);
      OneTree(h, Ref(id), j, k);
    }
  }

  /** A part of clean output at this depth, with every enclosing object on the path. */
  ghost predicate CleanPart(h: Heap, v: Value, j: Json, depth: nat, seen: set<nat>)
    requires depth <= MAX_DEPTH
  {
    Points(h, v) && Represents(h, v, j) && NoSecrets(j) && Within(j, MAX_DEPTH - depth) && Enclosing(h, seen, Size(j))
  }

  lemma {:induction false} FixedItems(h: Heap, values: seq<Value>, items: seq<Json>, depth: nat, seen: set<nat>)
    requires Closed(h) && depth <= MAX_DEPTH && |values| == |items|
    requires forall i :: 0 <= i < |values| ==> Points(h, values[i])
    requires forall i {:trigger items[i]} :: 0 <= i < |items| ==> CleanPart(h, values[i], items[i], depth, seen)
    ensures SanitizeItems(h, values, depth, seen) == items
    decreases MAX_DEPTH - depth, 3, |items|
  {
    if items != [] {
      var n := |items| - 1;
      assert CleanPart(h, values[n], items[n], depth, seen);
      forall i | 0 <= i < n ensures CleanPart(h, values[..n][i], items[..n][i], depth, seen) {
        assert CleanPart(h, values[i], items[i], depth, seen);
      }
      FixedItems(h, values[..n], items[..n], depth, seen);
      CleanIsFixed(h, values[n], items[n], depth, seen);
      assert items == items[..n] + [items[n]];
    }
  }

  ghost predicate CleanField(h: Heap, p: Property, f: Field, depth: nat, seen: set<nat>)
    requires depth <= MAX_DEPTH
  {
    p.key == f.key && !IsSensitive(f.key) && CleanPart(h, p.value, f.value, depth, seen)
  }

  lemma {:induction false} FixedFields(h: Heap, properties: seq<Property>, fields: seq<Field>, depth: nat,
      seen: set<nat>)
    requires Closed(h) && depth <= MAX_DEPTH && |properties| == |fields|
    requires forall i :: 0 <= i < |properties| ==> Points(h, properties[i].value)
    requires forall i {:trigger fields[i]} :: 0 <= i < |fields| ==> CleanField(h, properties[i], fields[i], depth, seen)
    ensures SanitizeProperties(h, properties, depth, seen) == fields
    decreases MAX_DEPTH - depth, 3, |fields|
  {
    if fields != [] {
      var n := |fields| - 1;
      assert CleanField(h, properties[n], fields[n], depth, seen);
      forall i | 0 <= i < n ensures CleanField(h, properties[..n][i], fields[..n][i], depth, seen) {
        assert CleanField(h, properties[i], fields[i], depth, seen);
      }
      FixedFields(h, properties[..n], fields[..n], depth, seen);
      CleanIsFixed(h, properties[n].value, fields[n].value, depth, seen);
      LastFieldFixed(h, properties, fields, depth, seen);
    }
  }

  lemma {:induction false} LastFieldFixed(h: Heap, properties: seq<Property>, fields: seq<Field>, depth: nat,
      seen: set<nat>)
    requires Closed(h) && depth <= MAX_DEPTH && |properties| == |fields| > 0
    requires forall i :: 0 <= i < |properties| ==> Points(h, properties[i].value)
    requires SanitizeProperties(h, properties[..|fields| - 1], depth, seen) == fields[..|fields| - 1]
    requires !IsSensitive(properties[|fields| - 1].key) && properties[|fields| - 1].key == fields[|fields| - 1].key
    requires Sanitize(h, properties[|fields| - 1].value, depth, seen) == Some(fields[|fields| - 1].value)
    ensures SanitizeProperties(h, properties, depth, seen) == fields
  {
    var n := |fields| - 1;
    assert fields == fields[..n] + [Field(properties[n].key, fields[n].value)];
  }

  /** Sanitising twice equals sanitising once, for every graph and every way of storing the first result. */
  lemma {:induction false} SanitizingTwiceIsOnce(h: Heap, v: Value, copy: Heap, w: Value)
    requires Closed(h) && Points(h, v) && Closed(copy) && Points(copy, w)
    requires SanitizeMetadata(h, v).Some? && Represents(copy, w, SanitizeMetadata(h, v).value)
    ensures SanitizeMetadata(copy, w) == SanitizeMetadata(h, v)
  {
    OutputIsSafe(h, v, 0, {});
    CleanIsFixed(copy, w, SanitizeMetadata(h, v).value, 0, {});
  }

  // ---- the code ------------------------------------------------------------------------------------

  /** One call of `sanitizeMetadata`, with its set of visited objects. */
  class Visitor {
    const heap: Heap
    var seen: set<nat>

    constructor (heap: Heap)
      ensures this.heap == heap && seen == {}
    {
      this.heap := heap;
      seen := {};
    }

    /** Visits a value and leaves the visited set as it found it. */
    method Visit(value: Value, depth: nat) returns (json: Option<Json>)
      requires Closed(heap) && Points(heap, value) && depth <= MAX_DEPTH
      modifies this
      ensures json == Sanitize(heap, value, depth, old(seen)) && seen == old(seen)
      decreases MAX_DEPTH - depth, 1
    {
      if !value.Ref? {
        return Primitive(value);
      }
      var node := heap[value.id];
      if node.Date? {
        return Some(JText(node.iso));
      }
      if depth >= MAX_DEPTH {
        return Some(JText("[truncated]"));
      }
      if value.id in seen {
        return Some(JText("[circular]"));
      }
      seen := seen + {value.id};
      assert Children(node) <= heap.Keys;
      match node {
        case Array(items) =>
          assert forall i :: 0 <= i < |items| ==> Points(heap, items[i]);
          var list := VisitItems(items, depth + 1);
          json := Some(JArray(list));
        case Wrapper(inner) =>
          var plain := Visit(inner, depth + 1);
          json := Some(OrNull(plain));
        case Record(properties) =>
          assert forall i :: 0 <= i < |properties| ==> Points(heap, properties[i].value);
          var fields := VisitProperties(properties, depth + 1);
          json := Some(JObject(fields));
      }
      seen := seen - {value.id};
    }

    method VisitItems(items: seq<Value>, depth: nat) returns (list: seq<Json>)
      requires Closed(heap) && (forall i :: 0 <= i < |items| ==> Points(heap, items[i])) && depth <= MAX_DEPTH
      modifies this
      ensures list == SanitizeItems(heap, items, depth, old(seen)) && seen == old(seen)
      decreases MAX_DEPTH - depth, 2
    {
      list := [];
      for i := 0 to |items|
        invariant seen == old(seen) && list == SanitizeItems(heap, items[..i], depth, seen)
      {
        var json := Visit(items[i], depth);
        assert items[..i + 1][..i] == items[..i];
        list := list + [OrNull(json)];
      }
      assert items[..|items|] == items;
    }

    method VisitProperties(properties: seq<Property>, depth: nat) returns (fields: seq<Field>)
      requires Closed(heap) && (forall i :: 0 <= i < |properties| ==> Points(heap, properties[i].value)) &&
        depth <= MAX_DEPTH
      modifies this
      ensures fields == SanitizeProperties(heap, properties, depth, old(seen)) && seen == old(seen)
      decreases MAX_DEPTH - depth, 2
    {
      fields := [];
      for i := 0 to |properties|
        invariant seen == old(seen) && fields == SanitizeProperties(heap, properties[..i], depth, seen)
      {
        assert properties[..i + 1][..i] == properties[..i];
        if !IsSensitive(properties[i].key) {
          var json := Visit(properties[i].value, depth);
          if json.Some? {
            fields := fields + [Field(properties[i].key, json.value)];
          }
        }
      }
      assert properties[..|properties|] == properties;
    }
  }

  // ---- computeDiff -----------------------------------------------------------------------------------

  datatype Change = Change(from: Json, to: Json)

  /** The value of a key, `Undefined` when absent. */
  function Lookup(properties: seq<Property>, key: string): Value {
    if properties == [] then Undefined
    else if properties[0].key == key then properties[0].value
    else Lookup(properties[1..], key)
  }

  ghost predicate DistinctKeys(properties: seq<Property>) {
    forall i, j :: 0 <= i < j < |properties| ==> properties[i].key != properties[j].key
  }

  lemma {:induction false} LookupPoints(h: Heap, properties: seq<Property>, key: string)
    requires forall i :: 0 <= i < |properties| ==> Points(h, properties[i].value)
    ensures Points(h, Lookup(properties, key))
  {
    if properties != [] { LookupPoints(h, properties[1..], key); }
  }

  lemma {:induction false} LookupFinds(properties: seq<Property>, i: nat)
    requires DistinctKeys(properties) && i < |properties|
    ensures Lookup(properties, properties[i].key) == properties[i].value
  {
    if i > 0 {
      LookupFinds(properties[1..], i - 1);
      assert properties[0].key != properties[i].key;
    }
  }

  /** What of a stored value a diff shows. */
  function Shown(h: Heap, v: Value): Json
    requires Closed(h) && Points(h, v)
  {
    OrNull(SanitizeMetadata(h, v))
  }

  /** A submitted key is recorded, with both shown values, exactly when it is not secret and its shown value moved. */
  ghost predicate DiffAt(h: Heap, before: seq<Property>, p: Property, changes: map<string, Change>)
    requires Closed(h) && Points(h, p.value) && Points(h, Lookup(before, p.key))
  {
    var from, to := Shown(h, Lookup(before, p.key)), Shown(h, p.value);
    && (p.key in changes <==> p.value != Undefined && !IsSensitive(p.key) && from != to)
    && (p.key in changes ==> changes[p.key] == Change(from, to))
  }

  lemma {:induction false} MetadataIsSafe(h: Heap, v: Value)
    requires Closed(h) && Points(h, v)
    ensures NoSecrets(OrNull(SanitizeMetadata(h, v)))
  {
    OutputIsSafe(h, v, 0, {});
  }

  /** The first submitted properties, each recorded when it should be. */
  ghost predicate DiffUpTo(h: Heap, before: seq<Property>, after: seq<Property>, n: nat, changes: map<string, Change>)
    requires Closed(h) && n <= |after|
    requires forall i :: 0 <= i < |before| ==> Points(h, before[i].value)
    requires forall i :: 0 <= i < |after| ==> Points(h, after[i].value)
  {
    forall i :: 0 <= i < n ==> (LookupPoints(h, before, after[i].key); DiffAt(h, before, after[i], changes))
  }

  /** Only submitted keys, and no secret in a recorded value. */
  ghost predicate CleanChanges(after: seq<Property>, n: nat, changes: map<string, Change>)
    requires n <= |after|
  {
    forall key :: key in changes ==>
      (exists i :: 0 <= i < n && after[i].key == key) && NoSecrets(changes[key].from) && NoSecrets(changes[key].to)
  }

  lemma {:induction false} DiffGrows(h: Heap, before: seq<Property>, after: seq<Property>, n: nat,
      old_: map<string, Change>, changes: map<string, Change>)
    requires Closed(h) && DistinctKeys(after) && n < |after|
    requires forall i :: 0 <= i < |before| ==> Points(h, before[i].value)
    requires forall i :: 0 <= i < |after| ==> Points(h, after[i].value)
    requires DiffUpTo(h, before, after, n, old_) && CleanChanges(after, n, old_)
    requires Points(h, Lookup(before, after[n].key))
    requires var key, from, to :=
        after[n].key, Shown(h, Lookup(before, after[n].key)), Shown(h, after[n].value);
      changes ==
        if after[n].value != Undefined && !IsSensitive(key) && from != to then old_[key := Change(from, to)] else old_
    ensures DiffUpTo(h, before, after, n + 1, changes) && CleanChanges(after, n + 1, changes)
  {
    MetadataIsSafe(h, Lookup(before, after[n].key));
    MetadataIsSafe(h, after[n].value);
    assert after[n].key !in old_;
    forall i | 0 <= i < n
      ensures Points(h, Lookup(before, after[i].key)) && DiffAt(h, before, after[i], changes)
    {
      LookupPoints(h, before, after[i].key);
      assert DiffAt(h, before, after[i], old_) && after[i].key != after[n].key;
    }
  }

  /** `computeDiff` of two plain records. */
  method ComputeDiff(h: Heap, before: seq<Property>, after: seq<Property>) returns (changes: map<string, Change>)
    requires Closed(h) && DistinctKeys(after)
    requires forall i :: 0 <= i < |before| ==> Points(h, before[i].value)
    requires forall i :: 0 <= i < |after| ==> Points(h, after[i].value)
    ensures forall i :: 0 <= i < |after| ==>
      (LookupPoints(h, before, after[i].key); DiffAt(h, before, after[i], changes))
    ensures forall key :: key in changes ==>
      (exists i :: 0 <= i < |after| && after[i].key == key) && NoSecrets(changes[key].from) &&
        NoSecrets(changes[key].to)
    ensures before == after ==> changes == map[]
  {
    changes := map[];
    for n := 0 to |after|
      invariant DiffUpTo(h, before, after, n, changes) && CleanChanges(after, n, changes)
      invariant before == after ==> changes == map[]
    {
      var key, next := after[n].key, after[n].value;
      ghost var old_ := changes;
      LookupPoints(h, before, key);
      LookupFinds(after, n);
      if next != Undefined && !IsSensitive(key) {
        var from := SanitizeMetadata(h, Lookup(before, key));
        var to := SanitizeMetadata(h, next);
        if OrNull(from) != OrNull(to) {
          changes := changes[key := Change(OrNull(from), OrNull(to))];
        }
      }
      DiffGrows(h, before, after, n, old_, changes);
    }
  }
}

/** What the metadata sanitiser stores, said without its code: the denied keys, every kind of value, every record. */
module MetadataRules {
  import opened Common
  import opened Sanitizer

  // ---- which keys are denied --------------------------------------------------------

  /** The denied keys as the repository spells them. */
  const SECRETS: seq<string> := [
    "password", "newPassword", "currentPassword", "confirmPassword", "token", "accessToken",
    "refreshToken", "tokenHash", "secret", "signature", "authorization"
  ]

  /** `large` is a capital of `small`: 32 code points below it, or the Kelvin sign for k. */
  predicate CapitalOf(large: char, small: char) {
    ('A' <= large <= 'Z' && small as int == large as int + 32) || (large as int == 0x212A && small == 'k')
  }

  predicate SameLetter(a: char, b: char) {
    a == b || CapitalOf(a, b) || CapitalOf(b, a) || (CapitalOf(a, 'k') && CapitalOf(b, 'k'))
  }

  /** The same word, whatever the case of its letters. */
  ghost predicate SameWord(a: string, b: string) {
    |a| == |b| && forall i :: 0 <= i < |a| ==> SameLetter(a[i], b[i])
  }

  lemma {:induction false} LowerTells(a: string, b: string)
    ensures Lower(a) == Lower(b) <==> SameWord(a, b)
  {
    if Lower(a) == Lower(b) {
      assert |Lower(a)| == |a| && |Lower(b)| == |b|;
      forall i | 0 <= i < |a| ensures SameLetter(a[i], b[i]) {
        assert Lower(a)[i] == Lower(b)[i];
      }
    }
  }

  /** The same eleven in small letters. */
  const LOWERED: seq<string> := [
    "password", "newpassword", "currentpassword", "confirmpassword", "token", "accesstoken",
    "refreshtoken", "tokenhash", "secret", "signature", "authorization"
  ]

  lemma {:induction false} SecretLowered(i: nat)
    requires i < 11
    ensures Lower(SECRETS[i]) == LOWERED[i] && LOWERED[i] in DENIED
  {
    assert LOWERED[i] in DENIED;
    assert Lower("newPassword") == "newpassword";
    assert Lower("currentPassword") == "currentpassword";
    assert Lower("confirmPassword") == "confirmpassword";
    assert Lower("accessToken") == "accesstoken";
    assert Lower("refreshToken") == "refreshtoken";
    assert Lower("tokenHash") == "tokenhash";
    if i in {0, 4, 8, 9, 10} { assert Lower(SECRETS[i]) == SECRETS[i]; }
  }

  lemma {:induction false} DeniedIsListed(word: string)
    requires word in DENIED
    ensures exists i :: 0 <= i < 11 && word == LOWERED[i]
  {
    assert word == LOWERED[0] || word == LOWERED[1] || word == LOWERED[2] || word == LOWERED[3] ||
      word == LOWERED[4] || word == LOWERED[5] || word == LOWERED[6] || word == LOWERED[7] ||
      word == LOWERED[8] || word == LOWERED[9] || word == LOWERED[10];
  }

  /** A key is denied exactly when it is one of the eleven, in whatever case it is written. */
  lemma {:induction false} DeniedExactly(key: string)
    ensures IsSensitive(key) <==> exists i :: 0 <= i < 11 && SameWord(key, SECRETS[i])
  {
    assert |SECRETS| == 11;
    forall i | 0 <= i < 11
      ensures Lower(SECRETS[i]) == LOWERED[i] && LOWERED[i] in DENIED
      ensures Lower(key) == Lower(SECRETS[i]) <==> SameWord(key, SECRETS[i])
    {
      SecretLowered(i);
      LowerTells(key, SECRETS[i]);
    }
    if IsSensitive(key) {
      DeniedIsListed(Lower(key));
    }
  }

  // ---- what is stored for a value ---------------------------------------------------

  /** What stands in for an absent value inside an array or a wrapper. */
  ghost predicate NullIfAbsent(stored: Json, inner: Option<Json>) {
    (inner == None ==> stored == JNull) && (inner.Some? ==> inner.value == stored)
  }

  /** The properties that are stored, in their order: `from` names where each stored field came from. */
  ghost predicate StoredFrom(h: Heap, properties: seq<Property>, fields: seq<Field>, from: seq<nat>, depth: nat,
      seen: set<nat>)
    requires Closed(h) && (forall k :: 0 <= k < |properties| ==> Points(h, properties[k].value)) && depth <= 8
  {
    && |from| == |fields|
    && (forall k :: 0 <= k < |from| ==> from[k] < |properties|)
    && (forall k, l :: 0 <= k < l < |from| ==> from[k] < from[l])
    && (forall k :: 0 <= k < |from| ==>
       fields[k].key == properties[from[k]].key
       && Sanitize(h, properties[from[k]].value, depth, seen) == Some(fields[k].value))
    && (forall i :: 0 <= i < |properties| ==>
       (i in from <==> !IsSensitive(properties[i].key) && Sanitize(h, properties[i].value, depth, seen).Some?))
  }

  ghost predicate KeptInOrder(h: Heap, properties: seq<Property>, fields: seq<Field>, depth: nat, seen: set<nat>)
    requires Closed(h) && (forall k :: 0 <= k < |properties| ==> Points(h, properties[k].value)) && depth <= 8
  {
    exists from :: StoredFrom(h, properties, fields, from, depth, seen)
  }

  function Sources(h: Heap, properties: seq<Property>, depth: nat, seen: set<nat>): seq<nat>
    requires Closed(h) && (forall k :: 0 <= k < |properties| ==> Points(h, properties[k].value)) && depth <= 8
  {
    if properties == [] then []
    else
      var n := |properties| - 1;
      var rest := Sources(h, properties[..n], depth, seen);
      if !IsSensitive(properties[n].key) && Sanitize(h, properties[n].value, depth, seen).Some? then rest + [n]
      else rest
  }

  lemma {:induction false} OneMoreStored(h: Heap, properties: seq<Property>, fields: seq<Field>, from: seq<nat>,
      depth: nat, seen: set<nat>)
    requires Closed(h) && (forall k :: 0 <= k < |properties| ==> Points(h, properties[k].value)) && depth <= 8
    requires properties != [] && StoredFrom(h, properties[..|properties| - 1], fields, from, depth, seen)
    ensures var n := |properties| - 1;
      var clean := Sanitize(h, properties[n].value, depth, seen);
      if !IsSensitive(properties[n].key) && clean.Some?
      then StoredFrom(h, properties, fields + [Field(properties[n].key, clean.value)], from + [n], depth, seen)
      else StoredFrom(h, properties, fields, from, depth, seen)
  {
    var n := |properties| - 1;
    var clean := Sanitize(h, properties[n].value, depth, seen);
    assert forall k :: 0 <= k < |from| ==> properties[..n][from[k]] == properties[from[k]];
    forall i | 0 <= i < n
      ensures i in from <==> !IsSensitive(properties[i].key) && Sanitize(h, properties[i].value, depth, seen).Some?
    {
      assert properties[..n][i] == properties[i];
    }
  }

  lemma {:induction false} PropertiesAreStored(h: Heap, properties: seq<Property>, depth: nat, seen: set<nat>)
    requires Closed(h) && (forall k :: 0 <= k < |properties| ==> Points(h, properties[k].value)) && depth <= 8
    ensures StoredFrom(h, properties, SanitizeProperties(h, properties, depth, seen),
      Sources(h, properties, depth, seen), depth, seen)
  {
    if properties != [] {
      var n := |properties| - 1;
      PropertiesAreStored(h, properties[..n], depth, seen);
      OneMoreStored(h, properties, SanitizeProperties(h, properties[..n], depth, seen),
        Sources(h, properties[..n], depth, seen), depth, seen);
    }
  }

  lemma {:induction false} RecordIsStored(h: Heap, properties: seq<Property>, depth: nat, seen: set<nat>)
    requires Closed(h) && (forall k :: 0 <= k < |properties| ==> Points(h, properties[k].value)) && depth <= 8
    ensures KeptInOrder(h, properties, SanitizeProperties(h, properties, depth, seen), depth, seen)
  {
    PropertiesAreStored(h, properties, depth, seen);
  }

  lemma {:induction false} ItemsAreStored(h: Heap, items: seq<Value>, depth: nat, seen: set<nat>)
    requires Closed(h) && (forall k :: 0 <= k < |items| ==> Points(h, items[k])) && depth <= 8
    ensures |SanitizeItems(h, items, depth, seen)| == |items|
    ensures forall k :: 0 <= k < |items| ==>
      NullIfAbsent(SanitizeItems(h, items, depth, seen)[k], Sanitize(h, items[k], depth, seen))
  {
    if items != [] {
      ItemsAreStored(h, items[..|items| - 1], depth, seen);
    }
  }

  /** What one value is stored as, given how the values inside it are stored one level further down. */
  ghost predicate StoredAs(h: Heap, v: Value, depth: nat, seen: set<nat>, stored: Option<Json>)
    requires Closed(h) && Points(h, v) && depth <= 8
  {
    match v
    case Null => stored == Some(JNull)
    case Undefined => stored == None
    case Function => stored == None
    case Bool(b) => stored == Some(JBool(b))
    case Text(s) => stored == Some(JText(s))
    case Number(n) => stored == Some(JNumber(n))
    case NotFinite => stored == Some(JNull)
    case BigInt(digits) => stored == Some(JText(digits))
    case Ref(id) =>
      if h[id].Date? then stored == Some(JText(h[id].iso))
      else if depth == 8 then stored == Some(JText("[truncated]"))
      else if id in seen then stored == Some(JText("[circular]"))
      else
        assert Children(h[id]) <= h.Keys;
        match h[id]
        case Array(items) =>
          && stored.Some? && stored.value.JArray? && |stored.value.items| == |items|
          && (forall k :: 0 <= k < |items| ==> Points(h, items[k]))
          && forall k :: 0 <= k < |items| ==>
             NullIfAbsent(stored.value.items[k], Sanitize(h, items[k], depth + 1, seen + {id}))
        case Wrapper(json) => stored.Some? && NullIfAbsent(stored.value, Sanitize(h, json, depth + 1, seen + {id}))
        case Record(properties) =>
          && (forall k :: 0 <= k < |properties| ==> Points(h, properties[k].value))
          && stored.Some? && stored.value.JObject?
          && KeptInOrder(h, properties, stored.value.fields, depth + 1, seen + {id})
  }

  /**
   * Every kind of value is stored as what it is; of a record exactly the properties are
   * kept that are not denied and have something to store, in their order.
   */
  lemma {:induction false} ValueIsStored(h: Heap, v: Value, depth: nat, seen: set<nat>)
    requires Closed(h) && Points(h, v) && depth <= 8
    ensures StoredAs(h, v, depth, seen, Sanitize(h, v, depth, seen))
  {
    if v.Ref? && depth < 8 && v.id !in seen {
      assert Children(h[v.id]) <= h.Keys;
      match h[v.id] {
        case Date(_) =>
        case Array(items) =>
          assert forall k :: 0 <= k < |items| ==> Points(h, items[k]);
          ItemsAreStored(h, items, depth + 1, seen + {v.id});
        case Wrapper(_) =>
        case Record(properties) =>
          assert forall k :: 0 <= k < |properties| ==> Points(h, properties[k].value);
          RecordIsStored(h, properties, depth + 1, seen + {v.id});
      }
    }
  }

  /** Nothing is stored exactly for an absent value and for an object of which nothing is left. */
  lemma {:induction false} NothingIsStoredExactlyWhen(h: Heap, v: Value)
    requires Closed(h) && Points(h, v)
    ensures SanitizeMetadata(h, v) == None <==>
      v == Undefined || v == Function || Sanitize(h, v, 0, {}) == Some(JObject([]))
    ensures SanitizeMetadata(h, v).Some? ==> StoredAs(h, v, 0, {}, SanitizeMetadata(h, v))
  {
    ValueIsStored(h, v, 0, {});
  }

  // ---- no secrets ----------------------------------------------------------------------

  /** No key of the eleven, in any case, at any depth, and at most `levels` levels. */
  ghost predicate Harmless(j: Json, levels: nat) {
    match j
    case JArray(items) => levels > 0 && forall k :: 0 <= k < |items| ==> Harmless(items[k], levels - 1)
    case JObject(fields) =>
      levels > 0 && forall k :: 0 <= k < |fields| ==>
        (forall i :: 0 <= i < 11 ==> !SameWord(fields[k].key, SECRETS[i])) && Harmless(fields[k].value, levels - 1)
    case _ => true
  }

  lemma {:induction false} SafeIsHarmless(j: Json, levels: nat)
    requires NoSecrets(j) && Within(j, levels)
    ensures Harmless(j, levels)
  {
    match j {
      case JArray(items) =>
        forall k | 0 <= k < |items| ensures Harmless(items[k], levels - 1) { SafeIsHarmless(items[k], levels - 1); }
      case JObject(fields) =>
        forall k | 0 <= k < |fields|
          ensures (forall i :: 0 <= i < 11 ==> !SameWord(fields[k].key, SECRETS[i]))
          ensures Harmless(fields[k].value, levels - 1)
        {
          DeniedExactly(fields[k].key);
          SafeIsHarmless(fields[k].value, levels - 1);
        }
      case _ =>
    }
  }

  /** Whatever object graph is handed in, what is stored holds none of the eleven keys and at most eight levels. */
  lemma {:induction false} NoSecretIsStored(h: Heap, v: Value)
    requires Closed(h) && Points(h, v)
    ensures SanitizeMetadata(h, v).Some? ==> Harmless(SanitizeMetadata(h, v).value, 8)
  {
    OutputIsSafe(h, v, 0, {});
    if SanitizeMetadata(h, v).Some? { SafeIsHarmless(SanitizeMetadata(h, v).value, 8); }
  }
}

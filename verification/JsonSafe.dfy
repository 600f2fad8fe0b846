/** The cycle-guarded JSON normaliser and the validator of its output (jsonsafe.py, contract.py).

    Containers live in a heap and are known by their identity, so that sharing and cycles are
    visible. `lower` is the lower-casing of keys, which both components use and nothing here
    depends on. A mapping key is represented by its text. */
module JsonSafe {
  import opened Outcomes
  import AbiWords

  type Id = nat

  datatype FloatValue = Finite(value: real) | NotFinite

  datatype Value = Ref(id: Id) | Bytes(bytes: seq<AbiWords.byte>) | Int(n: int) | Bool(b: bool) | Float(f: FloatValue)
                 | Text(text: string) | Null | Other(other: int)

  datatype Entry = Entry(key: string, value: Value)

  datatype Container = Mapping(entries: seq<Entry>) | Listing(items: seq<Value>)

  type Heap = map<Id, Container>

  /** No reference dangles. */
  ghost predicate Closed(h: Heap) {
    forall id | id in h ::
      match h[id]
      case Mapping(entries) => forall i | 0 <= i < |entries| :: Sited(h, entries[i].value)
      case Listing(items) => forall i | 0 <= i < |items| :: Sited(h, items[i])
  }

  predicate Sited(h: Heap, v: Value) { v.Ref? ==> v.id in h }

  datatype Json = JObject(fields: seq<Field>) | JArray(items: seq<Json>) | JString(text: string) | JInt(n: int)
                | JBool(b: bool) | JFloat(value: real) | JNull | JOther(other: int)

  datatype Field = Field(key: string, value: Json)

  // ---------------------------------------------------------------------- scalars

  const JS_SAFE_MAX := 0x1F_FFFF_FFFF_FFFF

  const BIGINT_KEY_HINTS := ["wei", "amount", "reserve", "profit", "gas", "fee", "minout", "min_out", "liquidity",
                             "sqrt", "price", "balance", "nonce", "value", "delta", "cap"]

  predicate OccursAt(s: string, part: string, i: nat) {
    i + |part| <= |s| && s[i..i + |part|] == part
  }

  predicate Contains(s: string, part: string) {
    exists i | 0 <= i <= |s| :: OccursAt(s, part, i)
  }

  predicate IsBigintKey(lower: string -> string, key: string) {
    exists i | 0 <= i < |BIGINT_KEY_HINTS| :: Contains(lower(key), BIGINT_KEY_HINTS[i])
  }

  predicate Hinted(lower: string -> string, key: Option<string>) {
    key.Some? && key.value != "" && IsBigintKey(lower, key.value)
  }

  predicate ShouldStringifyInt(lower: string -> string, key: Option<string>, n: int) {
    n > JS_SAFE_MAX || n < -JS_SAFE_MAX || Hinted(lower, key)
  }

  function Digits(n: nat): (s: string)
    ensures s != "" && forall c | c in s :: '0' <= c <= '9'
  {
    if n < 10 then [('0' as int + n) as char] else Digits(n / 10) + [('0' as int + n % 10) as char]
  }

  function Decimal(n: int): string { if n < 0 then "-" + Digits(-n) else Digits(n) }

  function ReadDigits(s: string): int {
    if s == "" then 0 else ReadDigits(s[..|s|-1]) * 10 + (s[|s|-1] as int - '0' as int)
  }

  function ReadDecimal(s: string): int {
    if s != "" && s[0] == '-' then -ReadDigits(s[1..]) else ReadDigits(s)
  }

  lemma {:induction false} DigitsReadBack(n: nat)
    ensures ReadDigits(Digits(n)) == n
  {
    if n >= 10 {
      DigitsReadBack(n / 10);
      assert Digits(n)[..|Digits(n)|-1] == Digits(n / 10);
    } else {
      assert Digits(n)[..0] == "";
    }
  }

  /** Writing an integer as text keeps its value. */
  lemma DecimalReadsBack(n: int)
    ensures ReadDecimal(Decimal(n)) == n
  {
    if n < 0 {
      assert Decimal(n)[1..] == Digits(-n);
      DigitsReadBack(-n);
    } else {
      assert Digits(n)[0] in Digits(n);
      DigitsReadBack(n);
    }
  }

  function HexDigit(d: nat): char
    requires d < 16
  {
    if d < 10 then ('0' as int + d) as char else ('a' as int + d - 10) as char
  }

  function Hex(bytes: seq<AbiWords.byte>): (s: string)
    ensures |s| == 2 * |bytes|
  {
    if bytes == [] then "" else [HexDigit(bytes[0] / 16), HexDigit(bytes[0] % 16)] + Hex(bytes[1..])
  }

  /** Byte strings keep their value: different bytes have different texts. */
  lemma {:induction false} HexIsInjective(a: seq<AbiWords.byte>, b: seq<AbiWords.byte>)
    requires Hex(a) == Hex(b)
    ensures a == b
  {
    assert |a| == |b|;
    if a != [] {
      assert Hex(a)[0] == Hex(b)[0] && Hex(a)[1] == Hex(b)[1];
      assert Hex(a)[2..] == Hex(a[1..]) && Hex(b)[2..] == Hex(b[1..]);
      HexIsInjective(a[1..], b[1..]);
      HexDigitsDiffer(a[0], b[0]);
      assert a == [a[0]] + a[1..] && b == [b[0]] + b[1..];
    }
  }

  lemma HexDigitsDiffer(x: AbiWords.byte, y: AbiWords.byte)
    requires HexDigit(x / 16) == HexDigit(y / 16) && HexDigit(x % 16) == HexDigit(y % 16)
    ensures x == y
  {
    assert x / 16 == y / 16 && x % 16 == y % 16;
  }

  function Scalar(lower: string -> string, v: Value, key: Option<string>): Json
    requires !v.Ref?
  {
    match v
    case Bytes(bytes) => JString("0x" + Hex(bytes))
    case Int(n) => if ShouldStringifyInt(lower, key, n) then JString(Decimal(n)) else JInt(n)
    case Float(f) => if f.Finite? then JFloat(f.value) else JNull
    case Bool(b) => JBool(b)
    case Text(s) => JString(s)
    case Null => JNull
    case Other(o) => JOther(o)
  }

  // -------------------------------------------------------------------- normalisation

  /** Assignment to a dictionary: a repeated key keeps its place and takes the new value. */
  function Put(fields: seq<Field>, key: string, value: Json): (r: seq<Field>)
    ensures forall f | f in r :: f == Field(key, value) || f in fields
  {
    if fields == [] then [Field(key, value)]
    else if fields[0].key == key then [Field(key, value)] + fields[1..]
    else
      var rest := Put(fields[1..], key, value);
      [fields[0]] + rest
  }

  /** Terminates on every heap: entering a container shrinks the set of containers that are
      not on the active path. */
  function Safe(lower: string -> string, h: Heap, v: Value, key: Option<string>, active: set<Id>): Json
    requires Closed(h) && Sited(h, v)
    decreases h.Keys - active, 2, 0
  {
    if !v.Ref? then Scalar(lower, v, key)
    else if v.id in active then JNull
    else
      assert v.id in h.Keys - active;
      match h[v.id]
      case Mapping(entries) => JObject(SafeFields(lower, h, entries, active + {v.id}))
      case Listing(items) => JArray(SafeItems(lower, h, items, key, active + {v.id}))
  }

  function SafeFields(lower: string -> string, h: Heap, entries: seq<Entry>, active: set<Id>): seq<Field>
    requires Closed(h) && forall i | 0 <= i < |entries| :: Sited(h, entries[i].value)
    decreases h.Keys - active, 3, |entries|
  {
    if entries == [] then []
    else
      var n := |entries| - 1;
      Put(SafeFields(lower, h, entries[..n], active), entries[n].key,
          Safe(lower, h, entries[n].value, Some(entries[n].key), active))
  }

  function SafeItems(lower: string -> string, h: Heap, items: seq<Value>, key: Option<string>,
                     active: set<Id>): seq<Json>
    requires Closed(h) && forall i | 0 <= i < |items| :: Sited(h, items[i])
    decreases h.Keys - active, 3, |items|
  {
    if items == [] then []
    else
      var n := |items| - 1;
      SafeItems(lower, h, items[..n], key, active) + [Safe(lower, h, items[n], key, active)]
  }

  /** The normaliser as written: one set of active identities, added to on the way in and
      discarded from on the way out. */
  class Normaliser {
    var active: set<Id>

    constructor ()
      ensures active == {}
    {
      active := {};
    }

    method ToJsonSafe(lower: string -> string, h: Heap, v: Value, key: Option<string>) returns (json: Json)
      requires Closed(h) && Sited(h, v)
      modifies this
      ensures active == old(active)
      ensures json == Safe(lower, h, v, key, old(active))
      decreases h.Keys - active, 0
    {
      if !v.Ref? {
        return Scalar(lower, v, key);
      }
      if v.id in active {
        return JNull;
      }
      ghost var before := active;
      assert v.id in h.Keys - before;
      active := active + {v.id};
      match h[v.id] {
        case Mapping(entries) =>
          var fields: seq<Field> := [];
          for i := 0 to |entries|
            invariant active == before + {v.id}
            invariant fields == SafeFields(lower, h, entries[..i], active)
          {
            var value := ToJsonSafe(lower, h, entries[i].value, Some(entries[i].key));
            assert entries[..i+1][..i] == entries[..i];
            fields := Put(fields, entries[i].key, value);
          }
          assert entries[..|entries|] == entries;
          json := JObject(fields);
        case Listing(values) =>
          var items: seq<Json> := [];
          for i := 0 to |values|
            invariant active == before + {v.id}
            invariant items == SafeItems(lower, h, values[..i], key, active)
          {
            var item := ToJsonSafe(lower, h, values[i], key);
            assert values[..i+1][..i] == values[..i];
            items := items + [item];
          }
          assert values[..|values|] == values;
          json := JArray(items);
      }
      active := active - {v.id};
    }
  }

  // ------------------------------------------------------------------- the validator

  /** validate_bigint_strings returns without raising. */
  predicate Accepts(lower: string -> string, json: Json, key: Option<string>) {
    match json
    case JObject(fields) => forall i | 0 <= i < |fields| :: Accepts(lower, fields[i].value, Some(fields[i].key))
    case JArray(items) => forall i | 0 <= i < |items| :: Accepts(lower, items[i], key)
    case JInt(_) => !Hinted(lower, key)
    case _ => true
  }

  /** Normal forms: accepted by the validator, no number that a browser would round, no
      repeated object key. */
  ghost predicate Normal(lower: string -> string, json: Json, key: Option<string>) {
    match json
    case JObject(fields) =>
      && (forall i, j | 0 <= i < j < |fields| :: fields[i].key != fields[j].key)
      && (forall i | 0 <= i < |fields| :: Normal(lower, fields[i].value, Some(fields[i].key)))
    case JArray(items) => forall i | 0 <= i < |items| :: Normal(lower, items[i], key)
    case JInt(n) => !ShouldStringifyInt(lower, key, n)
    case _ => true
  }

  ghost predicate NormalFields(lower: string -> string, fields: seq<Field>) {
    && (forall i, j | 0 <= i < j < |fields| :: fields[i].key != fields[j].key)
    && (forall i | 0 <= i < |fields| :: Normal(lower, fields[i].value, Some(fields[i].key)))
  }

  lemma {:induction false} PutKeepsNormal(lower: string -> string, fields: seq<Field>, key: string, value: Json)
    requires NormalFields(lower, fields) && Normal(lower, value, Some(key))
    ensures NormalFields(lower, Put(fields, key, value))
    ensures forall f | f in Put(fields, key, value) :: f.key == key || exists g :: g in fields && g.key == f.key
  {
    if fields != [] && fields[0].key != key {
      PutKeepsNormal(lower, fields[1..], key, value);
      var rest := Put(fields[1..], key, value);
      forall j | 0 <= j < |rest| ensures rest[j].key != fields[0].key {
        assert rest[j] in rest;
        if rest[j].key != key {
          var g :| g in fields[1..] && g.key == rest[j].key;
        }
      }
    }
  }

  lemma {:induction false} SafeIsNormal(lower: string -> string, h: Heap, v: Value, key: Option<string>,
                                        active: set<Id>)
    requires Closed(h) && Sited(h, v)
    ensures Normal(lower, Safe(lower, h, v, key, active), key)
    decreases h.Keys - active, 2, 0
  {
    if v.Ref? && v.id !in active {
      assert v.id in h.Keys - active;
      match h[v.id]
      case Mapping(entries) => FieldsAreNormal(lower, h, entries, active + {v.id});
      case Listing(items) => ItemsAreNormal(lower, h, items, key, active + {v.id});
    }
  }

  lemma {:induction false} FieldsAreNormal(lower: string -> string, h: Heap, entries: seq<Entry>, active: set<Id>)
    requires Closed(h) && forall i | 0 <= i < |entries| :: Sited(h, entries[i].value)
    ensures NormalFields(lower, SafeFields(lower, h, entries, active))
    decreases h.Keys - active, 3, |entries|
  {
    if entries != [] {
      var n := |entries| - 1;
      FieldsAreNormal(lower, h, entries[..n], active);
      SafeIsNormal(lower, h, entries[n].value, Some(entries[n].key), active);
      PutKeepsNormal(lower, SafeFields(lower, h, entries[..n], active), entries[n].key,
                     Safe(lower, h, entries[n].value, Some(entries[n].key), active));
    }
  }

  lemma {:induction false} ItemsAreNormal(lower: string -> string, h: Heap, items: seq<Value>, key: Option<string>,
                                          active: set<Id>)
    requires Closed(h) && forall i | 0 <= i < |items| :: Sited(h, items[i])
    ensures forall i | 0 <= i < |SafeItems(lower, h, items, key, active)| ::
      Normal(lower, SafeItems(lower, h, items, key, active)[i], key)
    decreases h.Keys - active, 3, |items|
  {
    if items != [] {
      var n := |items| - 1;
      ItemsAreNormal(lower, h, items[..n], key, active);
      SafeIsNormal(lower, h, items[n], key, active);
    }
  }

  lemma {:induction false} NormalIsAccepted(lower: string -> string, json: Json, key: Option<string>)
    requires Normal(lower, json, key)
    ensures Accepts(lower, json, key)
  {
    match json
    case JObject(fields) =>
      forall i | 0 <= i < |fields| ensures Accepts(lower, fields[i].value, Some(fields[i].key)) {
        NormalIsAccepted(lower, fields[i].value, Some(fields[i].key));
      }
    case JArray(items) =>
      forall i | 0 <= i < |items| ensures Accepts(lower, items[i], key) {
        NormalIsAccepted(lower, items[i], key);
      }
    case _ =>
  }

  /** Whatever graph is normalised, cyclic or not, the validator accepts the result. */
  lemma OutputIsAccepted(lower: string -> string, h: Heap, v: Value, key: Option<string>)
    requires Closed(h) && Sited(h, v)
    ensures Accepts(lower, Safe(lower, h, v, key, {}), key)
  {
    SafeIsNormal(lower, h, v, key, {});
    NormalIsAccepted(lower, Safe(lower, h, v, key, {}), key);
  }

  // -------------------------------------------------------- the guard and acyclic graphs

  /** Every reference leads to a container of lower rank. */
  ghost predicate Acyclic(h: Heap, rank: Id -> nat) {
    forall id | id in h ::
      match h[id]
      case Mapping(entries) => forall i | 0 <= i < |entries| :: BelowRank(rank, entries[i].value, rank(id))
      case Listing(items) => forall i | 0 <= i < |items| :: BelowRank(rank, items[i], rank(id))
  }

  predicate BelowRank(rank: Id -> nat, v: Value, n: nat) { v.Ref? ==> rank(v.id) < n }

  /** Normalisation of an acyclic graph without any guard. */
  ghost function Unguarded(lower: string -> string, h: Heap, rank: Id -> nat, v: Value, key: Option<string>): Json
    requires Closed(h) && Sited(h, v) && Acyclic(h, rank)
    decreases if v.Ref? then rank(v.id) + 1 else 0, 0
  {
    if !v.Ref? then Scalar(lower, v, key)
    else
      match h[v.id]
      case Mapping(entries) => JObject(UnguardedFields(lower, h, rank, entries, rank(v.id)))
      case Listing(items) => JArray(UnguardedItems(lower, h, rank, items, key, rank(v.id)))
  }

  ghost function UnguardedFields(lower: string -> string, h: Heap, rank: Id -> nat, entries: seq<Entry>,
                                 n: nat): seq<Field>
    requires Closed(h) && Acyclic(h, rank)
    requires forall i | 0 <= i < |entries| :: Sited(h, entries[i].value) && BelowRank(rank, entries[i].value, n)
    decreases n, 1, |entries|
  {
    if entries == [] then []
    else
      var m := |entries| - 1;
      assert BelowRank(rank, entries[m].value, n);
      Put(UnguardedFields(lower, h, rank, entries[..m], n), entries[m].key,
          Unguarded(lower, h, rank, entries[m].value, Some(entries[m].key)))
  }

  ghost function UnguardedItems(lower: string -> string, h: Heap, rank: Id -> nat, items: seq<Value>,
                                key: Option<string>, n: nat): seq<Json>
    requires Closed(h) && Acyclic(h, rank)
    requires forall i | 0 <= i < |items| :: Sited(h, items[i]) && BelowRank(rank, items[i], n)
    decreases n, 1, |items|
  {
    if items == [] then []
    else
      var m := |items| - 1;
      assert BelowRank(rank, items[m], n);
      UnguardedItems(lower, h, rank, items[..m], key, n) + [Unguarded(lower, h, rank, items[m], key)]
  }

  /** The guard changes nothing on an acyclic graph, so shared containers are still written out
      in full. */
  lemma {:induction false} GuardIsTransparent(lower: string -> string, h: Heap, rank: Id -> nat, v: Value,
                                              key: Option<string>, active: set<Id>)
    requires Closed(h) && Sited(h, v) && Acyclic(h, rank)
    requires v.Ref? ==> forall a | a in active :: rank(v.id) < rank(a)
    ensures Safe(lower, h, v, key, active) == Unguarded(lower, h, rank, v, key)
    decreases h.Keys - active, 2, 0
  {
    if v.Ref? {
      assert v.id !in active;
      assert v.id in h.Keys - active;
      match h[v.id]
      case Mapping(entries) => GuardedFields(lower, h, rank, entries, rank(v.id), active + {v.id});
      case Listing(items) => GuardedItems(lower, h, rank, items, key, rank(v.id), active + {v.id});
    }
  }

  lemma {:induction false} GuardedFields(lower: string -> string, h: Heap, rank: Id -> nat, entries: seq<Entry>, n: nat,
                                         active: set<Id>)
    requires Closed(h) && Acyclic(h, rank) && forall a | a in active :: n <= rank(a)
    requires forall i | 0 <= i < |entries| :: Sited(h, entries[i].value) && BelowRank(rank, entries[i].value, n)
    ensures SafeFields(lower, h, entries, active) == UnguardedFields(lower, h, rank, entries, n)
    decreases h.Keys - active, 3, |entries|
  {
    if entries != [] {
      var m := |entries| - 1;
      assert BelowRank(rank, entries[m].value, n);
      GuardedFields(lower, h, rank, entries[..m], n, active);
      GuardIsTransparent(lower, h, rank, entries[m].value, Some(entries[m].key), active);
    }
  }

  lemma {:induction false} GuardedItems(lower: string -> string, h: Heap, rank: Id -> nat, items: seq<Value>,
                                        key: Option<string>, n: nat, active: set<Id>)
    requires Closed(h) && Acyclic(h, rank) && forall a | a in active :: n <= rank(a)
    requires forall i | 0 <= i < |items| :: Sited(h, items[i]) && BelowRank(rank, items[i], n)
    ensures SafeItems(lower, h, items, key, active) == UnguardedItems(lower, h, rank, items, key, n)
    decreases h.Keys - active, 3, |items|
  {
    if items != [] {
      var m := |items| - 1;
      assert BelowRank(rank, items[m], n);
      GuardedItems(lower, h, rank, items[..m], key, n, active);
      GuardIsTransparent(lower, h, rank, items[m], key, active);
    }
  }

  // ------------------------------------------------------------------------ idempotence

  /** A value of a heap stands for a finished tree, with or without sharing. */
  predicate Represents(h: Heap, v: Value, json: Json)
    decreases json
  {
    match json
    case JObject(fields) =>
      v.Ref? && v.id in h && h[v.id].Mapping?
      && var entries := h[v.id].entries;
         |entries| == |fields|
         && forall i | 0 <= i < |fields| ::
              entries[i].key == fields[i].key && Represents(h, entries[i].value, fields[i].value)
    case JArray(items) =>
      v.Ref? && v.id in h && h[v.id].Listing?
      && var values := h[v.id].items;
         |values| == |items| && forall i | 0 <= i < |items| :: Represents(h, values[i], items[i])
    case JString(s) => v == Text(s)
    case JInt(n) => v == Int(n)
    case JBool(b) => v == Bool(b)
    case JFloat(x) => v == Float(Finite(x))
    case JNull => v == Null
    case JOther(o) => v == Other(o)
  }

  lemma {:induction false} OneMeaning(h: Heap, v: Value, a: Json, b: Json)
    requires Represents(h, v, a) && Represents(h, v, b)
    ensures a == b
    decreases a
  {
    match a
    case JObject(fields) =>
      forall i | 0 <= i < |fields| ensures fields[i] == b.fields[i] {
        OneMeaning(h, h[v.id].entries[i].value, fields[i].value, b.fields[i].value);
      }
      assert fields == b.fields;
    case JArray(items) =>
      forall i | 0 <= i < |items| ensures items[i] == b.items[i] {
        OneMeaning(h, h[v.id].items[i], items[i], b.items[i]);
      }
      assert items == b.items;
    case _ =>
  }

  /** Every container on the active path stands for a tree that properly contains this one. */
  ghost predicate Inside(h: Heap, json: Json, active: set<Id>) {
    forall a, big | a in active && Represents(h, Ref(a), big) :: json < big
  }

  lemma InsideChild(h: Heap, json: Json, id: Id, child: Json, active: set<Id>)
    requires Inside(h, json, active) && Represents(h, Ref(id), json) && child < json
    ensures Inside(h, child, active + {id})
  {
    forall a, big | a in active + {id} && Represents(h, Ref(a), big) ensures child < big {
      if a == id {
        OneMeaning(h, Ref(id), json, big);
      }
    }
  }

  lemma {:induction false} PutNew(fields: seq<Field>, key: string, value: Json)
    requires forall i | 0 <= i < |fields| :: fields[i].key != key
    ensures Put(fields, key, value) == fields + [Field(key, value)]
  {
    if fields != [] {
      PutNew(fields[1..], key, value);
    }
  }

  lemma {:induction false} NormalIsFixed(lower: string -> string, h: Heap, v: Value, json: Json, key: Option<string>,
                                         active: set<Id>)
    requires Closed(h) && Sited(h, v) && Represents(h, v, json)
    requires Normal(lower, json, key) && Inside(h, json, active)
    ensures Safe(lower, h, v, key, active) == json
    decreases json, 2, 0
  {
    match json
    case JObject(fields) =>
      assert v == Ref(v.id) && v.id !in active;
      FieldsAreFixed(lower, h, v.id, json, |fields|, active);
      assert fields[..|fields|] == fields && h[v.id].entries[..|fields|] == h[v.id].entries;
    case JArray(items) =>
      assert v == Ref(v.id) && v.id !in active;
      ItemsAreFixed(lower, h, v.id, json, |items|, key, active);
      assert items[..|items|] == items && h[v.id].items[..|items|] == h[v.id].items;
    case _ =>
  }

  lemma {:induction false} FieldsAreFixed(lower: string -> string, h: Heap, id: Id, json: Json, n: nat, active: set<Id>)
    requires Closed(h) && id in h && id !in active
    requires json.JObject? && Represents(h, Ref(id), json) && n <= |json.fields|
    requires NormalFields(lower, json.fields) && Inside(h, json, active)
    ensures SafeFields(lower, h, h[id].entries[..n], active + {id}) == json.fields[..n]
    decreases json, 1, n
  {
    if n > 0 {
      var entries, fields := h[id].entries, json.fields;
      FieldsAreFixed(lower, h, id, json, n - 1, active);
      assert entries[..n][..n-1] == entries[..n-1] && fields[..n] == fields[..n-1] + [fields[n-1]];
      InsideChild(h, json, id, fields[n-1].value, active);
      NormalIsFixed(lower, h, entries[n-1].value, fields[n-1].value, Some(fields[n-1].key), active + {id});
      PutNew(fields[..n-1], fields[n-1].key, fields[n-1].value);
    }
  }

  lemma {:induction false} ItemsAreFixed(lower: string -> string, h: Heap, id: Id, json: Json, n: nat,
                                         key: Option<string>, active: set<Id>)
    requires Closed(h) && id in h && id !in active
    requires json.JArray? && Represents(h, Ref(id), json) && n <= |json.items|
    requires Normal(lower, json, key) && Inside(h, json, active)
    ensures SafeItems(lower, h, h[id].items[..n], key, active + {id}) == json.items[..n]
    decreases json, 1, n
  {
    if n > 0 {
      var values, items := h[id].items, json.items;
      ItemsAreFixed(lower, h, id, json, n - 1, key, active);
      assert values[..n][..n-1] == values[..n-1] && items[..n] == items[..n-1] + [items[n-1]];
      InsideChild(h, json, id, items[n-1], active);
      NormalIsFixed(lower, h, values[n-1], items[n-1], key, active + {id});
    }
  }

  /** Idempotence: normalising any graph that stands for an already normalised result gives
      that result again. */
  lemma NormalisingTwice(lower: string -> string, h: Heap, v: Value, key: Option<string>, again: Heap, output: Value)
    requires Closed(h) && Sited(h, v) && Closed(again) && Sited(again, output)
    requires Represents(again, output, Safe(lower, h, v, key, {}))
    ensures Safe(lower, again, output, key, {}) == Safe(lower, h, v, key, {})
  {
    SafeIsNormal(lower, h, v, key, {});
    NormalIsFixed(lower, again, output, Safe(lower, h, v, key, {}), key, {});
  }

  // ------------------------------------------------------------ every result can be re-read

  ghost predicate Extends(h: Heap, n: nat, more: Heap, m: nat) {
    && n <= m && (forall id :: id in h <==> id < n) && (forall id :: id in more <==> id < m)
    && (forall id | id in h :: more[id] == h[id])
  }

  lemma {:induction false} RepresentsMore(h: Heap, n: nat, more: Heap, m: nat, v: Value, json: Json)
    requires Extends(h, n, more, m) && Represents(h, v, json)
    ensures Represents(more, v, json)
    decreases json
  {
    match json
    case JObject(fields) =>
      forall i | 0 <= i < |fields| ensures Represents(more, h[v.id].entries[i].value, fields[i].value) {
        RepresentsMore(h, n, more, m, h[v.id].entries[i].value, fields[i].value);
      }
    case JArray(items) =>
      forall i | 0 <= i < |items| ensures Represents(more, h[v.id].items[i], items[i]) {
        RepresentsMore(h, n, more, m, h[v.id].items[i], items[i]);
      }
    case _ =>
  }

  /** Every tree is represented in some closed heap, here by fresh containers. */
  lemma {:induction false} WriteOut(json: Json, h: Heap, n: nat) returns (more: Heap, m: nat, v: Value)
    requires Closed(h) && Extends(h, n, h, n)
    ensures Closed(more) && Extends(h, n, more, m) && Sited(more, v) && Represents(more, v, json)
    decreases json, 2, 0
  {
    match json
    case JObject(fields) =>
      var values;
      more, m, values := WriteAll(json, seq(|fields|, i requires 0 <= i < |fields| => fields[i].value), h, n);
      var entries := seq(|fields|, i requires 0 <= i < |fields| => Entry(fields[i].key, values[i]));
      v := Ref(m);
      RepresentAll(more, m, more[m := Mapping(entries)], values,
                   seq(|fields|, i requires 0 <= i < |fields| => fields[i].value));
      more, m := more[m := Mapping(entries)], m + 1;
    case JArray(items) =>
      var values;
      more, m, values := WriteAll(json, items, h, n);
      v := Ref(m);
      RepresentAll(more, m, more[m := Listing(values)], values, items);
      more, m := more[m := Listing(values)], m + 1;
    case JString(s) => more, m, v := h, n, Text(s);
    case JInt(k) => more, m, v := h, n, Int(k);
    case JBool(b) => more, m, v := h, n, Bool(b);
    case JFloat(x) => more, m, v := h, n, Float(Finite(x));
    case JNull => more, m, v := h, n, Null;
    case JOther(o) => more, m, v := h, n, Other(o);
  }

  lemma RepresentAll(h: Heap, n: nat, more: Heap, values: seq<Value>, items: seq<Json>)
    requires Extends(h, n, more, n + 1) && |values| == |items|
    requires forall i | 0 <= i < |items| :: Represents(h, values[i], items[i])
    ensures forall i | 0 <= i < |items| :: Represents(more, values[i], items[i])
  {
    forall i | 0 <= i < |items| ensures Represents(more, values[i], items[i]) {
      RepresentsMore(h, n, more, n + 1, values[i], items[i]);
    }
  }

  lemma {:induction false} WriteAll(whole: Json, items: seq<Json>, h: Heap, n: nat)
    returns (more: Heap, m: nat, values: seq<Value>)
    requires Closed(h) && Extends(h, n, h, n)
    requires forall i | 0 <= i < |items| :: items[i] < whole
    ensures Closed(more) && Extends(h, n, more, m) && |values| == |items|
    ensures forall i | 0 <= i < |items| :: Sited(more, values[i]) && Represents(more, values[i], items[i])
    decreases whole, 1, |items|
  {
    if items == [] {
      more, m, values := h, n, [];
    } else {
      var k := |items| - 1;
      var h1, n1, init := WriteAll(whole, items[..k], h, n);
      var v;
      more, m, v := WriteOut(items[k], h1, n1);
      forall i | 0 <= i < k ensures Represents(more, init[i], items[i]) {
        RepresentsMore(h1, n1, more, m, init[i], items[..k][i]);
      }
      values := init + [v];
    }
  }
}

/**
 * Canonical JSON for identities: two values get the same text exactly when they mean the same,
 * whatever the order of their properties.
 */
module CanonicalJson {
  import opened Common
  import opened Sorting

  /** A UTF-16 code unit, and JavaScript strings. */
  type Unit = x: int | 0 <= x < 0x1_0000
  type Text = seq<Unit>

  datatype Json =
    | Null
    | Bool(b: bool)
    | Num(token: Text)
    | Str(s: Text)
    | Arr(items: seq<Json>)
    | Obj(fields: seq<Field>)

  /** A property; `None` is the value `undefined`. */
  datatype Field = Field(key: Text, value: Option<Json>)

  // ---------------------------------------------------------------- order of strings and keys

  /** `compareStrings(a, b) < 0`: order by UTF-16 code units. */
  predicate TextBefore(a: Text, b: Text) {
    if |b| == 0 then false
    else if |a| == 0 then true
    else if a[0] != b[0] then a[0] < b[0]
    else TextBefore(a[1..], b[1..])
  }

  lemma {:induction false} TextBeforeIrreflexive(a: Text)
    ensures !TextBefore(a, a)
  {
    if |a| > 0 {
      TextBeforeIrreflexive(a[1..]);
    }
  }

  lemma {:induction false} TextBeforeTotal(a: Text, b: Text)
    ensures a == b || TextBefore(a, b) || TextBefore(b, a)
  {
    if |a| > 0 && |b| > 0 && a[0] == b[0] {
      TextBeforeTotal(a[1..], b[1..]);
      assert a == [a[0]] + a[1..] && b == [b[0]] + b[1..];
    }
  }

  lemma {:induction false} TextBeforeTransitive(a: Text, b: Text, c: Text)
    requires TextBefore(a, b) && TextBefore(b, c)
    ensures TextBefore(a, c)
  {
    if |a| > 0 && a[0] == b[0] == c[0] {
      TextBeforeTransitive(a[1..], b[1..], c[1..]);
    }
  }

  /** An array index as a property key: digits without a leading zero, below 2^32 - 1. */
  predicate IsIndex(key: Text) {
    && 1 <= |key| <= 10
    && (forall i :: 0 <= i < |key| ==> 0x30 <= key[i] <= 0x39)
    && (|key| > 1 ==> key[0] != 0x30)
    && (|key| == 10 ==> !TextBefore([0x34, 0x32, 0x39, 0x34, 0x39, 0x36, 0x37, 0x32, 0x39, 0x34], key))
  }

  /**
   * The order in which an object lists keys that were inserted in `compareStrings` order:
   * indices first and by value, then the others as inserted.
   */
  predicate KeyBefore(a: Text, b: Text) {
    if IsIndex(a) && IsIndex(b) then |a| < |b| || (|a| == |b| && TextBefore(a, b))
    else if IsIndex(a) != IsIndex(b) then IsIndex(a)
    else TextBefore(a, b)
  }

  lemma KeyBeforeIsOrder(a: Text, b: Text, c: Text)
    ensures !KeyBefore(a, a)
    ensures a == b || KeyBefore(a, b) || KeyBefore(b, a)
    ensures KeyBefore(a, b) && KeyBefore(b, c) ==> KeyBefore(a, c)
  {
    hide IsIndex, TextBefore;
    TextBeforeIrreflexive(a);
    TextBeforeTotal(a, b);
    if TextBefore(a, b) && TextBefore(b, c) {
      TextBeforeTransitive(a, b, c);
    }
  }

  function FieldOrder(): (Field, Field) -> bool {
    (a: Field, b: Field) => KeyBefore(a.key, b.key)
  }

  ghost predicate DistinctKeys(fields: seq<Field>) {
    forall i, j :: 0 <= i < j < |fields| ==> fields[i].key != fields[j].key
  }

  lemma FieldOrderFits(fields: seq<Field>)
    requires DistinctKeys(fields)
    ensures StrictOrder(FieldOrder()) && TotalOn(FieldOrder(), fields)
  {
    hide KeyBefore;
    forall a: Field
      ensures !FieldOrder()(a, a)
    {
      KeyBeforeIsOrder(a.key, a.key, a.key);
    }
    forall a: Field, b: Field, c: Field | FieldOrder()(a, b) && FieldOrder()(b, c)
      ensures FieldOrder()(a, c)
    {
      KeyBeforeIsOrder(a.key, b.key, c.key);
    }
    forall a, b | a in fields && b in fields
      ensures a == b || FieldOrder()(a, b) || FieldOrder()(b, a)
    {
      KeyBeforeIsOrder(a.key, b.key, b.key);
    }
  }

  // ---------------------------------------------------------------- canonical form

  function Canonicalize(v: Json): Json {
    match v
    case Arr(items) => Arr(CanonicalItems(items))
    case Obj(fields) => Obj(Sort(FieldOrder(), CanonicalFields(fields)))
    case _ => v
  }

  function CanonicalItems(items: seq<Json>): (r: seq<Json>)
    ensures |r| == |items|
  {
    if |items| == 0 then [] else [Canonicalize(items[0])] + CanonicalItems(items[1..])
  }

  /** The defined properties with canonical values, in their given order. */
  function CanonicalFields(fields: seq<Field>): seq<Field> {
    if |fields| == 0 then []
    else
      match fields[0].value
      case None => CanonicalFields(fields[1..])
      case Some(value) => [Field(fields[0].key, Some(Canonicalize(value)))] + CanonicalFields(fields[1..])
  }

  // ---------------------------------------------------------------- meaning

  /** What a value means: objects are maps from their defined keys. */
  datatype Meaning =
    | MNull
    | MBool(b: bool)
    | MNum(token: Text)
    | MStr(s: Text)
    | MArr(items: seq<Meaning>)
    | MObj(fields: map<Text, Meaning>)

  function MeaningOf(v: Json): Meaning {
    match v
    case Null => MNull
    case Bool(b) => MBool(b)
    case Num(token) => MNum(token)
    case Str(s) => MStr(s)
    case Arr(items) => MArr(MeaningOfItems(items))
    case Obj(fields) => MObj(MeaningOfFields(fields))
  }

  function MeaningOfItems(items: seq<Json>): (r: seq<Meaning>)
    ensures |r| == |items|
  {
    if |items| == 0 then [] else [MeaningOf(items[0])] + MeaningOfItems(items[1..])
  }

  function MeaningOfFields(fields: seq<Field>): map<Text, Meaning> {
    if |fields| == 0 then map[]
    else
      match fields[0].value
      case None => MeaningOfFields(fields[1..])
      case Some(value) => MeaningOfFields(fields[1..])[fields[0].key := MeaningOf(value)]
  }

  /** Property keys are unique at every level, as in any JavaScript object. */
  ghost predicate WellFormed(v: Json) {
    match v
    case Arr(items) => forall i :: 0 <= i < |items| ==> WellFormed(items[i])
    case Obj(fields) =>
      DistinctKeys(fields) && forall i :: 0 <= i < |fields| && fields[i].value.Some? ==> WellFormed(fields[i].value.value)
    case _ => true
  }

  // ---------------------------------------------------------------- canonical form and meaning

  lemma {:induction false} MeaningOfItemAt(items: seq<Json>, i: nat)
    requires i < |items|
    ensures MeaningOfItems(items)[i] == MeaningOf(items[i])
  {
    if i > 0 {
      MeaningOfItemAt(items[1..], i - 1);
    }
  }

  lemma {:induction false} CanonicalItemAt(items: seq<Json>, i: nat)
    requires i < |items|
    ensures CanonicalItems(items)[i] == Canonicalize(items[i])
  {
    if i > 0 {
      CanonicalItemAt(items[1..], i - 1);
    }
  }

  /** A key means what its one defined property means. */
  lemma {:induction false} MeaningOfFieldAt(fields: seq<Field>, key: Text) returns (i: nat)
    requires DistinctKeys(fields)
    ensures key in MeaningOfFields(fields) <==>
              i < |fields| && fields[i].key == key && fields[i].value.Some?
    ensures key in MeaningOfFields(fields) ==> MeaningOfFields(fields)[key] == MeaningOf(fields[i].value.value)
    ensures key !in MeaningOfFields(fields) ==> forall k :: 0 <= k < |fields| && fields[k].key == key ==> fields[k].value.None?
  {
    if |fields| == 0 {
      i := 0;
    } else {
      var rest := MeaningOfFieldAt(fields[1..], key);
      i := if fields[0].key == key && fields[0].value.Some? then 0 else rest + 1;
      assert forall k :: 0 < k < |fields| ==> fields[k] == fields[1..][k - 1];
    }
  }

  /** The canonical field of a key. */
  lemma {:induction false} CanonicalFieldMember(fields: seq<Field>, f: Field) returns (i: nat)
    requires f in CanonicalFields(fields)
    ensures i < |fields| && fields[i].value.Some? && f == Field(fields[i].key, Some(Canonicalize(fields[i].value.value)))
  {
    if fields[0].value.Some? && f == Field(fields[0].key, Some(Canonicalize(fields[0].value.value))) {
      i := 0;
    } else {
      var rest := CanonicalFieldMember(fields[1..], f);
      i := rest + 1;
    }
  }

  lemma {:induction false} CanonicalFieldsCover(fields: seq<Field>, i: nat)
    requires i < |fields| && fields[i].value.Some?
    ensures Field(fields[i].key, Some(Canonicalize(fields[i].value.value))) in CanonicalFields(fields)
  {
    if i > 0 {
      CanonicalFieldsCover(fields[1..], i - 1);
      assert CanonicalFields(fields[1..]) <= CanonicalFields(fields)
             || CanonicalFields(fields)[1..] == CanonicalFields(fields[1..]);
    }
  }

  lemma {:induction false} CanonicalFieldsDistinct(fields: seq<Field>)
    requires DistinctKeys(fields)
    ensures DistinctKeys(CanonicalFields(fields))
  {
    if |fields| > 0 {
      CanonicalFieldsDistinct(fields[1..]);
      var rest := CanonicalFields(fields[1..]);
      forall j | 0 <= j < |rest|
        ensures rest[j].key != fields[0].key
      {
        var i := CanonicalFieldMember(fields[1..], rest[j]);
        assert fields[1..][i] == fields[i + 1];
      }
    }
  }

  lemma DistinctKeysAreDistinct(fields: seq<Field>)
    requires DistinctKeys(fields)
    ensures NoDuplicates(fields)
  {
  }

  /** Values with the same meaning have the same canonical form. */
  lemma {:induction false} SameMeaningSameForm(a: Json, b: Json)
    requires WellFormed(a) && WellFormed(b) && MeaningOf(a) == MeaningOf(b)
    ensures Canonicalize(a) == Canonicalize(b)
    decreases a
  {
    match a
    case Arr(items) =>
      SameItemsSameForm(a, items, b.items);
    case Obj(fields) =>
      SameFieldsSameForm(a, fields, b.fields);
    case _ =>
  }

  lemma {:induction false} SameItemsSameForm(whole: Json, a: seq<Json>, b: seq<Json>)
    requires (forall i :: 0 <= i < |a| ==> a[i] < whole && WellFormed(a[i])) && forall i :: 0 <= i < |b| ==> WellFormed(b[i])
    requires MeaningOfItems(a) == MeaningOfItems(b)
    ensures CanonicalItems(a) == CanonicalItems(b)
    decreases whole, 0
  {
    forall i | 0 <= i < |a|
      ensures CanonicalItems(a)[i] == CanonicalItems(b)[i]
    {
      MeaningOfItemAt(a, i);
      MeaningOfItemAt(b, i);
      CanonicalItemAt(a, i);
      CanonicalItemAt(b, i);
      SameMeaningSameForm(a[i], b[i]);
    }
  }

  ghost predicate FieldsWellFormed(fields: seq<Field>) {
    DistinctKeys(fields) && forall i :: 0 <= i < |fields| && fields[i].value.Some? ==> WellFormed(fields[i].value.value)
  }

  lemma {:induction false} FieldCarriesOver(whole: Json, a: seq<Field>, b: seq<Field>, f: Field)
    requires FieldsWellFormed(a) && FieldsWellFormed(b) && MeaningOfFields(a) == MeaningOfFields(b) && f in CanonicalFields(a)
    requires (forall i :: 0 <= i < |a| && a[i].value.Some? ==> a[i].value.value < whole)
          || (forall i :: 0 <= i < |b| && b[i].value.Some? ==> b[i].value.value < whole)
    ensures f in CanonicalFields(b)
    decreases whole, 0
  {
    var i := CanonicalFieldMember(a, f);
    var k := MeaningOfFieldAt(a, f.key);
    assert k == i;
    var j := MeaningOfFieldAt(b, f.key);
    if a[i].value.value < whole {
      SameMeaningSameForm(a[i].value.value, b[j].value.value);
    } else {
      SameMeaningSameForm(b[j].value.value, a[i].value.value);
    }
    CanonicalFieldsCover(b, j);
  }

  lemma {:induction false} SameFieldsSameForm(whole: Json, a: seq<Field>, b: seq<Field>)
    requires FieldsWellFormed(a) && FieldsWellFormed(b) && MeaningOfFields(a) == MeaningOfFields(b)
    requires forall i :: 0 <= i < |a| && a[i].value.Some? ==> a[i].value.value < whole
    ensures Sort(FieldOrder(), CanonicalFields(a)) == Sort(FieldOrder(), CanonicalFields(b))
    decreases whole, 1
  {
    var x, y := CanonicalFields(a), CanonicalFields(b);
    forall f | f in x
      ensures f in y
    {
      FieldCarriesOver(whole, a, b, f);
    }
    forall f | f in y
      ensures f in x
    {
      FieldCarriesOver(whole, b, a, f);
    }
    CanonicalFieldsDistinct(a);
    CanonicalFieldsDistinct(b);
    SameDistinctMembers(x, y);
    FieldOrderFits(x);
    SortForgetsOrder(FieldOrder(), x, y);
  }

  lemma SameDistinctMembers(x: seq<Field>, y: seq<Field>)
    requires DistinctKeys(x) && DistinctKeys(y) && forall f :: f in x <==> f in y
    ensures multiset(x) == multiset(y)
  {
    DistinctKeysAreDistinct(x);
    DistinctKeysAreDistinct(y);
    DistinctMultiset(x);
    DistinctMultiset(y);
    assert Elements(x) == Elements(y);
  }

  /** Values with the same canonical form mean the same. */
  lemma {:induction false} SameFormSameMeaning(a: Json, b: Json)
    requires WellFormed(a) && WellFormed(b) && Canonicalize(a) == Canonicalize(b)
    ensures MeaningOf(a) == MeaningOf(b)
    decreases a
  {
    match a
    case Arr(items) => SameFormItems(a, items, b.items);
    case Obj(fields) =>
      var x, y := CanonicalFields(fields), CanonicalFields(b.fields);
      MultisetMembers(x, Sort(FieldOrder(), x));
      MultisetMembers(y, Sort(FieldOrder(), y));
      SameFormFields(a, fields, b.fields);
    case _ =>
  }

  lemma {:induction false} SameFormItems(whole: Json, a: seq<Json>, b: seq<Json>)
    requires (forall i :: 0 <= i < |a| ==> a[i] < whole && WellFormed(a[i])) && forall i :: 0 <= i < |b| ==> WellFormed(b[i])
    requires CanonicalItems(a) == CanonicalItems(b)
    ensures MeaningOfItems(a) == MeaningOfItems(b)
    decreases whole, 0
  {
    assert |a| == |CanonicalItems(a)| == |CanonicalItems(b)| == |b|;
    forall i | 0 <= i < |a|
      ensures MeaningOfItems(a)[i] == MeaningOfItems(b)[i]
    {
      MeaningOfItemAt(a, i);
      MeaningOfItemAt(b, i);
      CanonicalItemAt(a, i);
      CanonicalItemAt(b, i);
      SameFormSameMeaning(a[i], b[i]);
    }
  }

  /** A key defined on one side is defined on the other with the same meaning. */
  lemma {:induction false} MeaningCarriesOver(whole: Json, a: seq<Field>, b: seq<Field>, key: Text)
    requires FieldsWellFormed(a) && FieldsWellFormed(b) && forall f :: f in CanonicalFields(a) ==> f in CanonicalFields(b)
    requires (forall i :: 0 <= i < |a| && a[i].value.Some? ==> a[i].value.value < whole)
          || (forall i :: 0 <= i < |b| && b[i].value.Some? ==> b[i].value.value < whole)
    requires key in MeaningOfFields(a)
    ensures key in MeaningOfFields(b) && MeaningOfFields(b)[key] == MeaningOfFields(a)[key]
    decreases whole, 0
  {
    var i := MeaningOfFieldAt(a, key);
    CanonicalFieldsCover(a, i);
    var j := CanonicalFieldMember(b, Field(key, Some(Canonicalize(a[i].value.value))));
    var k := MeaningOfFieldAt(b, key);
    assert k == j;
    if a[i].value.value < whole {
      SameFormSameMeaning(a[i].value.value, b[j].value.value);
    } else {
      SameFormSameMeaning(b[j].value.value, a[i].value.value);
    }
  }

  lemma {:induction false} SameFormFields(whole: Json, a: seq<Field>, b: seq<Field>)
    requires FieldsWellFormed(a) && FieldsWellFormed(b) && forall f :: f in CanonicalFields(a) <==> f in CanonicalFields(b)
    requires forall i :: 0 <= i < |a| && a[i].value.Some? ==> a[i].value.value < whole
    ensures MeaningOfFields(a) == MeaningOfFields(b)
    decreases whole, 1
  {
    forall key | key in MeaningOfFields(a)
      ensures key in MeaningOfFields(b) && MeaningOfFields(b)[key] == MeaningOfFields(a)[key]
    {
      MeaningCarriesOver(whole, a, b, key);
    }
    forall key | key in MeaningOfFields(b)
      ensures key in MeaningOfFields(a)
    {
      MeaningCarriesOver(whole, b, a, key);
    }
  }
}

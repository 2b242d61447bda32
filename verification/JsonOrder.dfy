/**
 * `sort_keys=True`: the text depends on what an object maps to what, not on
 * the order in which its keys were inserted, and it determines exactly that.
 */
module JsonOrder {
  import opened Json

  /** What a value is when insertion order does not count. */
  datatype Value =
    | VNull
    | VBool(b: bool)
    | VInt(n: int)
    | VStr(s: string)
    | VArr(items: seq<Value>)
    | VObj(fields: map<string, Value>)

  function Meaning(v: Json): Value
    decreases v, 1
  {
    match v
    case Null => VNull
    case Bool(b) => VBool(b)
    case Int(n) => VInt(n)
    case Str(s) => VStr(s)
    case Arr(items) => VArr(ItemMeanings(items))
    case Obj(fields) => VObj(FieldMeanings(fields))
  }

  function ItemMeanings(items: seq<Json>): seq<Value>
    decreases items, 0
  {
    if items == [] then [] else [Meaning(items[0])] + ItemMeanings(items[1..])
  }

  function FieldMeanings(fields: seq<Field>): map<string, Value>
    decreases fields, 0
  {
    if fields == [] then map[] else
      var f := fields[|fields| - 1];
      FieldMeanings(fields[..|fields| - 1])[f.key := Meaning(f.value)]
  }

  /** A Python dictionary has each key once, at every level. */
  predicate WellFormed(v: Json)
    decreases v, 1
  {
    match v
    case Arr(items) => forall i :: 0 <= i < |items| ==> WellFormed(items[i])
    case Obj(fields) =>
      && (forall i, j :: 0 <= i < j < |fields| ==> fields[i].key != fields[j].key)
      && (forall i :: 0 <= i < |fields| ==> WellFormed(fields[i].value))
    case _ => true
  }

  /** Python's order on strings: by code point. */
  predicate Less(a: string, b: string) {
    if b == "" then false
    else if a == "" then true
    else if a[0] != b[0] then a[0] < b[0]
    else Less(a[1..], b[1..])
  }

  /** The strings agree up to some place where the first ends or has the smaller character. */
  predicate LessAt(a: string, b: string, k: nat) {
    k <= |a| && k < |b| && (forall j :: 0 <= j < k ==> a[j] == b[j]) && (k == |a| || a[k] < b[k])
  }

  lemma {:induction false} LessMeaning(a: string, b: string)
    ensures Less(a, b) <==> exists k: nat :: LessAt(a, b, k)
  {
    if a != "" && b != "" {
      LessMeaning(a[1..], b[1..]);
      if k: nat :| LessAt(a, b, k) {
        if k > 0 {
          assert LessAt(a[1..], b[1..], k - 1);
        }
      }
      if a[0] == b[0] && Less(a[1..], b[1..]) {
        var k: nat :| LessAt(a[1..], b[1..], k);
        forall j | 0 <= j < k + 1 ensures a[j] == b[j] {
          if j > 0 {
            assert a[1..][j - 1] == b[1..][j - 1];
          }
        }
        assert LessAt(a, b, k + 1);
      } else if a[0] < b[0] {
        assert LessAt(a, b, 0);
      }
    } else if b != "" {
      assert LessAt(a, b, 0);
    }
  }

  lemma {:induction false} LessTotal(a: string, b: string)
    ensures Less(a, b) || a == b || Less(b, a)
  {
    if a != "" && b != "" && a[0] == b[0] {
      LessTotal(a[1..], b[1..]);
      assert a == [a[0]] + a[1..] && b == [b[0]] + b[1..];
    }
  }

  lemma {:induction false} LessTransitive(a: string, b: string, c: string)
    requires Less(a, b) && Less(b, c)
    ensures Less(a, c)
  {
    if a != "" && a[0] == b[0] && b[0] == c[0] {
      LessTransitive(a[1..], b[1..], c[1..]);
    }
  }

  lemma {:induction false} LessIrreflexive(a: string)
    ensures !Less(a, a)
  {
    if a != "" {
      LessIrreflexive(a[1..]);
    }
  }

  // Sorting by key

  function InsertField(fields: seq<Field>, f: Field): seq<Field> {
    if fields == [] || Less(fields[|fields| - 1].key, f.key) then fields + [f]
    else InsertField(fields[..|fields| - 1], f) + [fields[|fields| - 1]]
  }

  /** The value with the keys of every object in order, at every level. */
  function Normalize(v: Json): Json
    decreases v, 1
  {
    match v
    case Arr(items) => Arr(NormalizeItems(items))
    case Obj(fields) => Obj(NormalizeFields(fields))
    case _ => v
  }

  function NormalizeItems(items: seq<Json>): seq<Json>
    decreases items, 0
  {
    if items == [] then [] else [Normalize(items[0])] + NormalizeItems(items[1..])
  }

  function NormalizeFields(fields: seq<Field>): seq<Field>
    decreases fields, 0
  {
    if fields == [] then [] else
      var f := fields[|fields| - 1];
      InsertField(NormalizeFields(fields[..|fields| - 1]), Field(f.key, Normalize(f.value)))
  }

  /** `json.dumps(v, sort_keys=True)` */
  function Dumps(v: Json): string {
    Print(Normalize(v))
  }

  ghost predicate KeysSorted(fields: seq<Field>) {
    forall i, j :: 0 <= i < j < |fields| ==> Less(fields[i].key, fields[j].key)
  }

  ghost predicate Canonical(v: Json)
    decreases v, 1
  {
    match v
    case Arr(items) => forall i :: 0 <= i < |items| ==> Canonical(items[i])
    case Obj(fields) => KeysSorted(fields) && CanonicalValues(fields)
    case _ => true
  }

  ghost predicate CanonicalValues(fields: seq<Field>)
    decreases fields, 0
  {
    forall i :: 0 <= i < |fields| ==> Canonical(fields[i].value)
  }

  // Normalizing keeps the meaning and reaches canonical form.

  lemma {:induction false} FieldMeaningKeys(fields: seq<Field>, k: string)
    ensures k in FieldMeanings(fields) <==> exists i :: 0 <= i < |fields| && fields[i].key == k
  {
    if fields != [] {
      var n := |fields| - 1;
      FieldMeaningKeys(fields[..n], k);
      if i :| 0 <= i < |fields| && fields[i].key == k {
        if i < n {
          assert fields[..n][i].key == k;
        }
      }
      if j :| 0 <= j < n && fields[..n][j].key == k {
        assert fields[j].key == k;
      }
    }
  }

  lemma {:induction false} InsertKeepsSorted(fields: seq<Field>, f: Field)
    requires KeysSorted(fields) && CanonicalValues(fields) && Canonical(f.value)
    requires forall i :: 0 <= i < |fields| ==> fields[i].key != f.key
    ensures KeysSorted(InsertField(fields, f)) && CanonicalValues(InsertField(fields, f))
    ensures FieldMeanings(InsertField(fields, f)) == FieldMeanings(fields)[f.key := Meaning(f.value)]
  {
    if fields == [] || Less(fields[|fields| - 1].key, f.key) {
      InsertAtEnd(fields, f);
    } else {
      var n := |fields| - 1;
      var last := fields[n];
      LessTotal(last.key, f.key);
      InsertKeepsSorted(fields[..n], f);
      InsertBeforeLast(InsertField(fields[..n], f), fields[..n], last, f);
      assert fields == fields[..n] + [last];
    }
  }

  lemma {:induction false} InsertAtEnd(fields: seq<Field>, f: Field)
    requires KeysSorted(fields) && CanonicalValues(fields) && Canonical(f.value)
    requires fields != [] ==> Less(fields[|fields| - 1].key, f.key)
    ensures KeysSorted(fields + [f]) && CanonicalValues(fields + [f])
    ensures FieldMeanings(fields + [f]) == FieldMeanings(fields)[f.key := Meaning(f.value)]
  {
    forall i | 0 <= i < |fields| ensures Less(fields[i].key, f.key) {
      if i < |fields| - 1 {
        LessTransitive(fields[i].key, fields[|fields| - 1].key, f.key);
      }
    }
    SnocSorted(fields, f);
    SnocMeaning(fields, f);
  }

  lemma InsertBeforeLast(front': seq<Field>, front: seq<Field>, last: Field, f: Field)
    requires KeysSorted(front') && CanonicalValues(front') && Canonical(last.value)
    requires KeysSorted(front + [last]) && Less(f.key, last.key)
    requires FieldMeanings(front') == FieldMeanings(front)[f.key := Meaning(f.value)]
    ensures KeysSorted(front' + [last]) && CanonicalValues(front' + [last])
    ensures FieldMeanings(front' + [last]) == FieldMeanings(front + [last])[f.key := Meaning(f.value)]
  {
    forall i | 0 <= i < |front'| ensures Less(front'[i].key, last.key) {
      KeysStayBelow(front', front, last, f, i);
    }
    SnocSorted(front', last);
    LessIrreflexive(last.key);
    SnocMeaning(front', last);
    SnocMeaning(front, last);
    UpdatesCommute(FieldMeanings(front), f.key, Meaning(f.value), last.key, Meaning(last.value));
  }

  lemma SnocMeaning(fields: seq<Field>, f: Field)
    ensures FieldMeanings(fields + [f]) == FieldMeanings(fields)[f.key := Meaning(f.value)]
  {
    assert (fields + [f])[..|fields|] == fields;
  }

  lemma SnocSorted(fields: seq<Field>, f: Field)
    requires KeysSorted(fields) && CanonicalValues(fields) && Canonical(f.value)
    requires forall i :: 0 <= i < |fields| ==> Less(fields[i].key, f.key)
    ensures KeysSorted(fields + [f]) && CanonicalValues(fields + [f])
  {
  }

  lemma UpdatesCommute<T>(m: map<string, T>, k: string, x: T, l: string, y: T)
    requires k != l
    ensures m[k := x][l := y] == m[l := y][k := x]
  {
  }

  lemma KeysStayBelow(front': seq<Field>, front: seq<Field>, last: Field, f: Field, i: nat)
    requires KeysSorted(front + [last]) && Less(f.key, last.key) && i < |front'|
    requires FieldMeanings(front').Keys == FieldMeanings(front).Keys + {f.key}
    ensures Less(front'[i].key, last.key)
  {
    var k := front'[i].key;
    FieldMeaningKeys(front', k);
    if k != f.key {
      FieldMeaningKeys(front, k);
      var j :| 0 <= j < |front| && front[j].key == k;
      assert Less((front + [last])[j].key, (front + [last])[|front|].key);
    }
  }

  lemma {:induction false} NormalizeKeeps(v: Json)
    requires WellFormed(v)
    ensures Canonical(Normalize(v)) && Meaning(Normalize(v)) == Meaning(v)
    decreases v, 1
  {
    match v
    case Arr(items) => NormalizeItemsKeeps(items);
    case Obj(fields) => NormalizeFieldsKeeps(fields);
    case _ =>
  }

  lemma {:induction false} NormalizeItemsKeeps(items: seq<Json>)
    requires forall i :: 0 <= i < |items| ==> WellFormed(items[i])
    ensures forall i :: 0 <= i < |NormalizeItems(items)| ==> Canonical(NormalizeItems(items)[i])
    ensures ItemMeanings(NormalizeItems(items)) == ItemMeanings(items)
    decreases items, 0
  {
    if items != [] {
      NormalizeKeeps(items[0]);
      NormalizeItemsKeeps(items[1..]);
      assert NormalizeItems(items)[1..] == NormalizeItems(items[1..]);
    }
  }

  lemma {:induction false} NormalizeFieldsKeeps(fields: seq<Field>)
    requires forall i, j :: 0 <= i < j < |fields| ==> fields[i].key != fields[j].key
    requires forall i :: 0 <= i < |fields| ==> WellFormed(fields[i].value)
    ensures KeysSorted(NormalizeFields(fields)) && CanonicalValues(NormalizeFields(fields))
    ensures FieldMeanings(NormalizeFields(fields)) == FieldMeanings(fields)
    decreases fields, 0
  {
    if fields != [] {
      var n := |fields| - 1;
      var f := fields[n];
      NormalizeFieldsKeeps(fields[..n]);
      assert f in fields;
      NormalizeKeeps(f.value);
      var sorted := NormalizeFields(fields[..n]);
      forall i | 0 <= i < |sorted| ensures sorted[i].key != f.key {
        FieldMeaningKeys(sorted, sorted[i].key);
        FieldMeaningKeys(fields[..n], sorted[i].key);
      }
      InsertKeepsSorted(sorted, Field(f.key, Normalize(f.value)));
    }
  }

  // Canonical values with one meaning are one value.

  lemma {:induction false} CanonicalUnique(v: Json, w: Json)
    requires Canonical(v) && Canonical(w) && Meaning(v) == Meaning(w)
    ensures v == w
    decreases v, 1
  {
    match v
    case Arr(items) => CanonicalItemsUnique(items, w.items);
    case Obj(fields) => CanonicalFieldsUnique(fields, w.fields);
    case _ =>
  }

  lemma {:induction false} CanonicalItemsUnique(a: seq<Json>, b: seq<Json>)
    requires (forall i :: 0 <= i < |a| ==> Canonical(a[i])) && (forall i :: 0 <= i < |b| ==> Canonical(b[i]))
    requires ItemMeanings(a) == ItemMeanings(b)
    ensures a == b
    decreases a, 0
  {
    if a != [] && b != [] {
      assert ItemMeanings(a)[0] == ItemMeanings(b)[0];
      assert ItemMeanings(a)[1..] == ItemMeanings(a[1..]) && ItemMeanings(b)[1..] == ItemMeanings(b[1..]);
      CanonicalUnique(a[0], b[0]);
      CanonicalItemsUnique(a[1..], b[1..]);
      assert a == [a[0]] + a[1..] && b == [b[0]] + b[1..];
    }
  }

  /** The last key of a sorted list is at least every key of a list with the same keys. */
  lemma LastKeyIsGreatest(a: seq<Field>, b: seq<Field>)
    requires a != [] && b != [] && KeysSorted(b) && FieldMeanings(a).Keys == FieldMeanings(b).Keys
    ensures a[|a| - 1].key == b[|b| - 1].key || Less(a[|a| - 1].key, b[|b| - 1].key)
  {
    var k := a[|a| - 1].key;
    FieldMeaningKeys(a, k);
    FieldMeaningKeys(b, k);
    var j :| 0 <= j < |b| && b[j].key == k;
  }

  lemma SameLastKey(a: seq<Field>, b: seq<Field>)
    requires a != [] && b != [] && KeysSorted(a) && KeysSorted(b)
    requires FieldMeanings(a).Keys == FieldMeanings(b).Keys
    ensures a[|a| - 1].key == b[|b| - 1].key
  {
    var k, l := a[|a| - 1].key, b[|b| - 1].key;
    LastKeyIsGreatest(a, b);
    LastKeyIsGreatest(b, a);
    if k != l {
      LessTransitive(k, l, k);
      LessIrreflexive(k);
    }
  }

  lemma LastKeyIsNew(a: seq<Field>)
    requires a != [] && KeysSorted(a)
    ensures a[|a| - 1].key !in FieldMeanings(a[..|a| - 1])
  {
    var n := |a| - 1;
    FieldMeaningKeys(a[..n], a[n].key);
    LessIrreflexive(a[n].key);
    forall i | 0 <= i < n ensures a[..n][i].key != a[n].key {
      assert Less(a[i].key, a[n].key);
    }
  }

  lemma SameWithoutKey<T>(m: map<string, T>, m': map<string, T>, k: string, x: T, y: T)
    requires k !in m && k !in m' && m[k := x] == m'[k := y]
    ensures m == m' && x == y
  {
    assert m[k := x][k] == m'[k := y][k];
    forall j ensures j in m <==> j in m' {
      assert j in m[k := x] <==> j in m'[k := y];
    }
    forall j | j in m ensures m[j] == m'[j] {
      assert m[k := x][j] == m'[k := y][j];
    }
  }

  lemma {:induction false} CanonicalFieldsUnique(a: seq<Field>, b: seq<Field>)
    requires KeysSorted(a) && KeysSorted(b) && CanonicalValues(a) && CanonicalValues(b)
    requires FieldMeanings(a) == FieldMeanings(b)
    ensures a == b
    decreases a, 0
  {
    assert a != [] ==> a[|a| - 1].key in FieldMeanings(a);
    assert b != [] ==> b[|b| - 1].key in FieldMeanings(b);
    if a != [] && b != [] {
      var n, m := |a| - 1, |b| - 1;
      SameLastKey(a, b);
      LastKeyIsNew(a);
      LastKeyIsNew(b);
      SameWithoutKey(FieldMeanings(a[..n]), FieldMeanings(b[..m]), a[n].key, Meaning(a[n].value), Meaning(b[m].value));
      CanonicalFieldsUnique(a[..n], b[..m]);
      CanonicalUnique(a[n].value, b[m].value);
      assert a == a[..n] + [a[n]] && b == b[..m] + [b[m]];
    }
  }

  /**
   * Two values have the same text exactly when they mean the same: key order
   * never shows, at any level, and nothing else is ever confused.
   */
  lemma DumpsInjective(v: Json, w: Json)
    requires WellFormed(v) && WellFormed(w)
    ensures Dumps(v) == Dumps(w) <==> Meaning(v) == Meaning(w)
  {
    NormalizeKeeps(v);
    NormalizeKeeps(w);
    if Dumps(v) == Dumps(w) {
      RoundTrip(Normalize(v), "");
      RoundTrip(Normalize(w), "");
    }
    if Meaning(v) == Meaning(w) {
      CanonicalUnique(Normalize(v), Normalize(w));
    }
  }
}

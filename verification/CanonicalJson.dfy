/** Canonical JSON: objects are rewritten with their keys in order, so that digests depend on meaning alone. */
module CanonicalJson {
  import opened Prelude

  /** An object lists its properties in the order in which they are enumerated. */
  datatype Json =
    | Null
    | Boolean(flag: bool)
    | Number(number: real)
    | Text(text: string)
    | List(items: seq<Json>)
    | Object(entries: seq<(string, Json)>)

  predicate UniqueKeys(entries: seq<(string, Json)>) {
    forall i, j :: 0 <= i < j < |entries| ==> entries[i].0 != entries[j].0
  }

  ghost predicate Valid(j: Json) {
    match j
    case List(items) => forall i :: 0 <= i < |items| ==> Valid(items[i])
    case Object(entries) => UniqueKeys(entries) && forall i :: 0 <= i < |entries| ==> Valid(entries[i].1)
    case Null => true
    case Boolean(_) => true
    case Number(_) => true
    case Text(_) => true
  }

  // ---------- the order of keys ----------

  /** Strings are compared by code units; a proper prefix comes first. */
  predicate Before(a: string, b: string) {
    if b == "" then false
    else if a == "" then true
    else a[0] < b[0] || (a[0] == b[0] && Before(a[1..], b[1..]))
  }

  lemma {:induction false} BeforeIsTotal(a: string, b: string)
    ensures Before(a, b) || Before(b, a) || a == b
    ensures !(Before(a, b) && Before(b, a)) && !Before(a, a)
  {
    if a != "" {
      BeforeIsTotal(a[1..], a[1..]);
    }
    if a != "" && b != "" {
      BeforeIsTotal(a[1..], b[1..]);
      assert a[0] == b[0] && a[1..] == b[1..] ==> a == [a[0]] + a[1..] == b;
    }
  }

  lemma {:induction false} BeforeIsTransitive(a: string, b: string, c: string)
    requires Before(a, b) && Before(b, c)
    ensures Before(a, c)
  {
    if a != "" && a[0] == b[0] == c[0] {
      BeforeIsTransitive(a[1..], b[1..], c[1..]);
    }
  }

  ghost predicate InOrder(keys: seq<string>) {
    forall i, j :: 0 <= i < j < |keys| ==> Before(keys[i], keys[j])
  }

  function KeySet(keys: seq<string>): set<string> {
    set key | key in keys
  }

  ghost predicate NoRepeats(keys: seq<string>) {
    forall i, j :: 0 <= i < j < |keys| ==> keys[i] != keys[j]
  }

  /** The code unit order has one arrangement of a set of keys. */
  lemma {:induction false} OneArrangement(a: seq<string>, b: seq<string>)
    requires InOrder(a) && InOrder(b) && KeySet(a) == KeySet(b)
    ensures a == b
  {
    assert a != [] ==> a[0] in KeySet(a);
    assert b != [] ==> b[0] in KeySet(b);
    if a != [] && b != [] {
      FirstIsLeast(a, b[0]);
      FirstIsLeast(b, a[0]);
      BeforeIsTotal(a[0], b[0]);
      RestOfKeys(a);
      RestOfKeys(b);
      OneArrangement(a[1..], b[1..]);
      assert a == [a[0]] + a[1..] && b == [b[0]] + b[1..];
    }
  }

  lemma FirstIsLeast(keys: seq<string>, key: string)
    requires InOrder(keys) && key in keys
    ensures key == keys[0] || Before(keys[0], key)
  {
    var i :| 0 <= i < |keys| && keys[i] == key;
  }

  lemma RestOfKeys(keys: seq<string>)
    requires InOrder(keys) && keys != []
    ensures KeySet(keys[1..]) == KeySet(keys) - {keys[0]}
  {
    forall i | 0 < i < |keys| ensures keys[i] != keys[0] {
      BeforeIsTotal(keys[0], keys[i]);
    }
  }

  function Inserted(key: string, keys: seq<string>): (r: seq<string>)
    ensures |r| == |keys| + 1
    ensures forall k :: k in r <==> k == key || k in keys
  {
    if keys == [] then [key]
    else if Before(key, keys[0]) then [key] + keys
    else [keys[0]] + Inserted(key, keys[1..])
  }

  function Sorted(keys: seq<string>): (r: seq<string>)
    ensures |r| == |keys|
    ensures forall k :: k in r <==> k in keys
  {
    if keys == [] then [] else Inserted(keys[0], Sorted(keys[1..]))
  }

  lemma {:induction false} InsertedInOrder(key: string, keys: seq<string>)
    requires InOrder(keys) && key !in keys
    ensures InOrder(Inserted(key, keys))
  {
    if keys != [] {
      BeforeIsTotal(key, keys[0]);
      if Before(key, keys[0]) {
        forall i | 1 <= i < |keys| ensures Before(key, keys[i]) {
          BeforeIsTransitive(key, keys[0], keys[i]);
        }
      } else {
        var rest := Inserted(key, keys[1..]);
        InsertedInOrder(key, keys[1..]);
        forall k | k in rest ensures Before(keys[0], k) {
          if k != key {
            FirstIsLeast(keys, k);
            RestOfKeys(keys);
            assert k in KeySet(keys[1..]);
          }
        }
      }
    }
  }

  lemma {:induction false} SortedInOrder(keys: seq<string>)
    requires NoRepeats(keys)
    ensures InOrder(Sorted(keys))
  {
    if keys != [] {
      SortedInOrder(keys[1..]);
      InsertedInOrder(keys[0], Sorted(keys[1..]));
    }
  }

  // ---------- the order in which an object enumerates its keys ----------

  predicate IsDigit(c: char) {
    '0' <= c <= '9'
  }

  function NumberOf(key: string): nat
    requires forall c :: c in key ==> IsDigit(c)
  {
    if key == "" then 0
    else
      var last := key[|key| - 1];
      assert last in key && IsDigit(last);
      10 * NumberOf(key[..|key| - 1]) + (last as int - '0' as int)
  }

  /** Array indices: decimal numbers below 2^32 - 1 written without leading zeros. */
  predicate IsIndex(key: string) {
    && key != "" && (forall c :: c in key ==> IsDigit(c)) && (key[0] == '0' ==> key == "0")
    && NumberOf(key) < 4_294_967_295
  }

  function ByNumber(key: string, keys: seq<string>): (r: seq<string>)
    requires IsIndex(key) && forall k :: k in keys ==> IsIndex(k)
    ensures |r| == |keys| + 1
    ensures forall k :: k in r <==> k == key || k in keys
  {
    if keys == [] then [key]
    else
      assert keys[0] in keys && IsIndex(keys[0]);
      if NumberOf(key) < NumberOf(keys[0]) then [key] + keys else [keys[0]] + ByNumber(key, keys[1..])
  }

  function Indices(keys: seq<string>): (r: seq<string>)
    ensures forall k :: k in r <==> k in keys && IsIndex(k)
  {
    if keys == [] then []
    else if IsIndex(keys[0]) then ByNumber(keys[0], Indices(keys[1..]))
    else Indices(keys[1..])
  }

  function Names(keys: seq<string>): (r: seq<string>)
    ensures forall k :: k in r <==> k in keys && !IsIndex(k)
  {
    if keys == [] then [] else (if IsIndex(keys[0]) then [] else [keys[0]]) + Names(keys[1..])
  }

  /** Keys put into an object in some order come out with the indices first, in ascending order. */
  function Enumerated(keys: seq<string>): (r: seq<string>)
    ensures forall k :: k in r <==> k in keys
  {
    Indices(keys) + Names(keys)
  }

  lemma {:induction false} ByNumberAddsOne(key: string, keys: seq<string>)
    requires IsIndex(key) && (forall k :: k in keys ==> IsIndex(k)) && key !in keys && NoRepeats(keys)
    ensures NoRepeats(ByNumber(key, keys))
  {
    if keys != [] {
      ByNumberAddsOne(key, keys[1..]);
      var rest := ByNumber(key, keys[1..]);
      assert keys[0] !in rest;
      assert keys[0] in keys;
    }
  }

  lemma {:induction false} EnumeratedHasNoRepeats(keys: seq<string>)
    requires NoRepeats(keys)
    ensures NoRepeats(Indices(keys)) && NoRepeats(Names(keys)) && NoRepeats(Enumerated(keys))
  {
    if keys != [] {
      EnumeratedHasNoRepeats(keys[1..]);
      assert keys[0] !in keys[1..];
      if IsIndex(keys[0]) {
        ByNumberAddsOne(keys[0], Indices(keys[1..]));
      } else {
        assert keys[0] !in Names(keys[1..]);
      }
    }
    var (a, b) := (Indices(keys), Names(keys));
    forall i, j | 0 <= i < j < |a + b| ensures (a + b)[i] != (a + b)[j] {
      if i < |a| <= j {
        assert a[i] in a && b[j - |a|] in b;
      }
    }
  }

  // ---------- sorting a value ----------

  function Keys(entries: seq<(string, Json)>): (keys: seq<string>)
    ensures |keys| == |entries| && forall i :: 0 <= i < |entries| ==> keys[i] == entries[i].0
  {
    seq(|entries|, i requires 0 <= i < |entries| => entries[i].0)
  }

  function IndexOf(entries: seq<(string, Json)>, key: string): (i: nat)
    requires key in Keys(entries)
    ensures i < |entries| && entries[i].0 == key
  {
    if entries[0].0 == key then 0
    else
      assert Keys(entries)[1..] == Keys(entries[1..]);
      1 + IndexOf(entries[1..], key)
  }

  /** The value under each key. */
  function Properties(entries: seq<(string, Json)>): (properties: map<string, Json>)
    ensures forall k :: k in properties <==> k in Keys(entries)
    ensures forall k :: k in properties ==> properties[k] == entries[IndexOf(entries, k)].1
  {
    map k | k in Keys(entries) :: entries[IndexOf(entries, k)].1
  }

  function Order(entries: seq<(string, Json)>): (keys: seq<string>)
    ensures forall k :: k in keys <==> k in Keys(entries)
  {
    Enumerated(Sorted(Keys(entries)))
  }

  function Arranged(keys: seq<string>, values: map<string, Json>): (entries: seq<(string, Json)>)
    requires forall k :: k in keys ==> k in values
    ensures |entries| == |keys| && forall i :: 0 <= i < |keys| ==> keys[i] in values && entries[i] == (keys[i], values[keys[i]])
  {
    seq(|keys|, i requires 0 <= i < |keys| => assert keys[i] in keys; (keys[i], values[keys[i]]))
  }

  function SortJson(j: Json): Json {
    match j
    case List(items) => List(seq(|items|, i requires 0 <= i < |items| => SortJson(items[i])))
    case Object(entries) =>
      var properties := Properties(entries);
      Object(Arranged(Order(entries), map k | k in properties :: SortJson(properties[k])))
    case Null => j
    case Boolean(_) => j
    case Number(_) => j
    case Text(_) => j
  }

  // ---------- meaning ----------

  /** What a value says: an object is a set of named values. */
  datatype Meaning =
    | Atom(atom: Json)
    | Many(parts: seq<Meaning>)
    | Named(properties: map<string, Meaning>)

  ghost function Means(j: Json): Meaning {
    match j
    case List(items) => Many(seq(|items|, i requires 0 <= i < |items| => Means(items[i])))
    case Object(entries) =>
      var properties := Properties(entries);
      Named(map k | k in properties :: Means(properties[k]))
    case Null => Atom(j)
    case Boolean(_) => Atom(j)
    case Number(_) => Atom(j)
    case Text(_) => Atom(j)
  }

  lemma OrderHasNoRepeats(entries: seq<(string, Json)>)
    requires UniqueKeys(entries)
    ensures NoRepeats(Order(entries))
  {
    SortedInOrder(Keys(entries));
    var sorted := Sorted(Keys(entries));
    forall i, j | 0 <= i < j < |sorted| ensures sorted[i] != sorted[j] {
      BeforeIsTotal(sorted[i], sorted[j]);
    }
    EnumeratedHasNoRepeats(sorted);
  }

  /** Sorting keeps the meaning of every value, at every depth. */
  lemma {:induction false} SortingKeepsMeaning(j: Json)
    requires Valid(j)
    ensures Means(SortJson(j)) == Means(j) && Valid(SortJson(j))
  {
    match j
    case List(items) =>
      forall i | 0 <= i < |items| ensures Means(SortJson(items[i])) == Means(items[i]) && Valid(SortJson(items[i])) {
        SortingKeepsMeaning(items[i]);
      }
    case Object(entries) =>
      var properties := Properties(entries);
      forall k | k in properties
        ensures Means(SortJson(properties[k])) == Means(properties[k]) && Valid(SortJson(properties[k]))
      {
        SortingKeepsMeaning(properties[k]);
      }
      ObjectKeepsMeaning(entries);
    case Null =>
    case Boolean(_) =>
    case Number(_) =>
    case Text(_) =>
  }

  lemma ArrangedKeys(keys: seq<string>, values: map<string, Json>)
    requires NoRepeats(keys) && forall k :: k in keys <==> k in values
    ensures UniqueKeys(Arranged(keys, values)) && Keys(Arranged(keys, values)) == keys
  {
  }

  /** An arranged object gives back the value of every key. */
  lemma ArrangedLookup(keys: seq<string>, values: map<string, Json>)
    requires NoRepeats(keys) && forall k :: k in keys <==> k in values
    ensures Properties(Arranged(keys, values)) == values
  {
    var entries := Arranged(keys, values);
    ArrangedKeys(keys, values);
    forall k | k in values ensures k in Properties(entries) && Properties(entries)[k] == values[k] {
      var i := IndexOf(entries, k);
      assert entries[i] == (keys[i], values[keys[i]]);
    }
    assert Properties(entries).Keys == values.Keys;
  }

  ghost function SortAll(properties: map<string, Json>): map<string, Json> {
    map k | k in properties :: SortJson(properties[k])
  }

  ghost function MeansAll(properties: map<string, Json>): map<string, Meaning> {
    map k | k in properties :: Means(properties[k])
  }

  lemma ObjectForm(entries: seq<(string, Json)>)
    ensures SortJson(Object(entries)) == Object(Arranged(Order(entries), SortAll(Properties(entries))))
    ensures Means(Object(entries)) == Named(MeansAll(Properties(entries)))
  {
    var p := Properties(entries);
    assert (map k | k in p :: SortJson(p[k])) == SortAll(p);
    assert (map k | k in p :: Means(p[k])) == MeansAll(p);
  }

  lemma ObjectKeepsMeaning(entries: seq<(string, Json)>)
    requires UniqueKeys(entries)
    requires forall k :: k in Properties(entries) ==>
               Means(SortJson(Properties(entries)[k])) == Means(Properties(entries)[k]) && Valid(SortJson(Properties(entries)[k]))
    ensures Means(SortJson(Object(entries))) == Means(Object(entries)) && Valid(SortJson(Object(entries)))
  {
    OrderHasNoRepeats(entries);
    ObjectForm(entries);
    AllKeepMeaning(Properties(entries));
    ArrangedForm(Order(entries), SortAll(Properties(entries)));
  }

  lemma AllKeepMeaning(p: map<string, Json>)
    requires forall k :: k in p ==> Means(SortJson(p[k])) == Means(p[k]) && Valid(SortJson(p[k]))
    ensures MeansAll(SortAll(p)) == MeansAll(p) && forall k :: k in SortAll(p) ==> Valid(SortAll(p)[k])
  {
    forall k | k in p ensures MeansAll(SortAll(p))[k] == MeansAll(p)[k] {
      assert SortAll(p)[k] == SortJson(p[k]);
    }
    assert MeansAll(SortAll(p)).Keys == p.Keys == MeansAll(p).Keys;
  }

  lemma ArrangedForm(keys: seq<string>, values: map<string, Json>)
    requires NoRepeats(keys) && (forall k :: k in keys <==> k in values)
    requires forall k :: k in values ==> Valid(values[k])
    ensures Means(Object(Arranged(keys, values))) == Named(MeansAll(values)) && Valid(Object(Arranged(keys, values)))
  {
    ArrangedKeys(keys, values);
    ArrangedLookup(keys, values);
    ObjectForm(Arranged(keys, values));
    ArrangedIsValid(keys, values);
  }

  lemma ArrangedIsValid(keys: seq<string>, values: map<string, Json>)
    requires (forall k :: k in keys <==> k in values) && UniqueKeys(Arranged(keys, values))
    requires forall k :: k in values ==> Valid(values[k])
    ensures Valid(Object(Arranged(keys, values)))
  {
  }

  // ---------- one canonical form for each meaning ----------

  /** Values that mean the same are sorted into the same value. */
  lemma {:induction false} SameMeaningSameForm(a: Json, b: Json)
    requires Valid(a) && Valid(b) && Means(a) == Means(b)
    ensures SortJson(a) == SortJson(b)
    decreases a
  {
    if a.List? {
      SameParts(a.items, b.items);
      forall i | 0 <= i < |a.items| ensures SortJson(a.items[i]) == SortJson(b.items[i]) {
        SameMeaningSameForm(a.items[i], b.items[i]);
      }
      assert SortJson(a).items == SortJson(b).items;
    } else if a.Object? {
      var (p, q) := (Properties(a.entries), Properties(b.entries));
      SameNames(a.entries, b.entries);
      forall k | k in p ensures SortJson(p[k]) == SortJson(q[k]) {
        SameMeaningSameForm(p[k], q[k]);
      }
      SameObject(a.entries, b.entries);
    }
  }

  lemma SameParts(a: seq<Json>, b: seq<Json>)
    requires Means(List(a)) == Means(List(b))
    ensures |a| == |b| && forall i :: 0 <= i < |a| ==> Means(a[i]) == Means(b[i])
  {
    var (m, n) := (Means(List(a)).parts, Means(List(b)).parts);
    assert |a| == |m| == |n| == |b|;
    forall i | 0 <= i < |a| ensures Means(a[i]) == Means(b[i]) {
      assert m[i] == n[i];
    }
  }

  lemma SameNames(a: seq<(string, Json)>, b: seq<(string, Json)>)
    requires Means(Object(a)) == Means(Object(b))
    ensures Properties(a).Keys == Properties(b).Keys
    ensures forall k :: k in Properties(a) ==> Means(Properties(a)[k]) == Means(Properties(b)[k])
  {
    ObjectForm(a);
    ObjectForm(b);
    SameProperties(Properties(a), Properties(b));
  }

  lemma SameObject(a: seq<(string, Json)>, b: seq<(string, Json)>)
    requires UniqueKeys(a) && UniqueKeys(b) && Properties(a).Keys == Properties(b).Keys
    requires forall k :: k in Properties(a) ==> SortJson(Properties(a)[k]) == SortJson(Properties(b)[k])
    ensures SortJson(Object(a)) == SortJson(Object(b))
  {
    ObjectForm(a);
    ObjectForm(b);
    SameOrder(a, b);
    SameSorted(Properties(a), Properties(b));
  }

  lemma SameSorted(p: map<string, Json>, q: map<string, Json>)
    requires p.Keys == q.Keys && forall k :: k in p ==> SortJson(p[k]) == SortJson(q[k])
    ensures SortAll(p) == SortAll(q)
  {
    assert SortAll(p).Keys == p.Keys == q.Keys == SortAll(q).Keys;
    forall k | k in p ensures SortAll(p)[k] == SortAll(q)[k] {
      assert SortAll(p)[k] == SortJson(p[k]);
    }
  }

  lemma SameProperties(p: map<string, Json>, q: map<string, Json>)
    requires MeansAll(p) == MeansAll(q)
    ensures p.Keys == q.Keys && forall k :: k in p ==> Means(p[k]) == Means(q[k])
  {
    assert p.Keys == MeansAll(p).Keys == MeansAll(q).Keys == q.Keys;
    forall k | k in p ensures Means(p[k]) == Means(q[k]) {
      assert MeansAll(p)[k] == MeansAll(q)[k];
    }
  }

  lemma SameOrder(a: seq<(string, Json)>, b: seq<(string, Json)>)
    requires UniqueKeys(a) && UniqueKeys(b) && Properties(a).Keys == Properties(b).Keys
    ensures Order(a) == Order(b)
  {
    SortedInOrder(Keys(a));
    SortedInOrder(Keys(b));
    assert forall k :: k in Keys(a) <==> k in Properties(a).Keys;
    assert forall k :: k in Keys(b) <==> k in Properties(b).Keys;
    OneArrangement(Sorted(Keys(a)), Sorted(Keys(b)));
  }

  /** Two values have the same canonical form exactly when they differ in nothing but the order of object keys. */
  lemma SameFormExactly(a: Json, b: Json)
    requires Valid(a) && Valid(b)
    ensures SortJson(a) == SortJson(b) <==> Means(a) == Means(b)
  {
    SortingKeepsMeaning(a);
    SortingKeepsMeaning(b);
    if Means(a) == Means(b) {
      SameMeaningSameForm(a, b);
    }
  }

  /** A canonical form is its own canonical form. */
  lemma SortingTwice(j: Json)
    requires Valid(j)
    ensures SortJson(SortJson(j)) == SortJson(j)
  {
    SortingKeepsMeaning(j);
    SameMeaningSameForm(SortJson(j), j);
  }

  // ---------- the order a canonical form has ----------

  /** The order of keys is the order of their first differing code units, and a proper prefix comes first. */
  lemma {:induction false} BeforeExactly(a: string, b: string)
    ensures Before(a, b) <==> exists k :: 0 <= k <= |a| && k < |b| && a[..k] == b[..k] && (k == |a| || a[k] < b[k])
  {
    if Before(a, b) {
      if a == "" {
        assert a[..0] == b[..0];
      } else if a[0] < b[0] {
        assert a[..0] == b[..0];
      } else {
        BeforeExactly(a[1..], b[1..]);
        var k :| 0 <= k <= |a[1..]| && k < |b[1..]| && a[1..][..k] == b[1..][..k] && (k == |a[1..]| || a[1..][k] < b[1..][k]);
        assert a[..k + 1] == [a[0]] + a[1..][..k] && b[..k + 1] == [b[0]] + b[1..][..k];
      }
    } else if k :| 0 <= k <= |a| && k < |b| && a[..k] == b[..k] && (k == |a| || a[k] < b[k]) {
      DiffersAt(a, b, k);
    }
  }

  lemma {:induction false} DiffersAt(a: string, b: string, k: nat)
    requires k <= |a| && k < |b| && a[..k] == b[..k] && (k == |a| || a[k] < b[k])
    ensures Before(a, b)
  {
    if k > 0 {
      assert a[0] == a[..k][0] == b[..k][0] == b[0];
      assert a[1..][..k - 1] == a[..k][1..] == b[..k][1..] == b[1..][..k - 1];
      DiffersAt(a[1..], b[1..], k - 1);
    }
  }

  ghost predicate Ascending(keys: seq<string>) {
    && (forall i :: 0 <= i < |keys| ==> IsIndex(keys[i]))
    && forall i, j :: 0 <= i < j < |keys| ==> NumberOf(keys[i]) <= NumberOf(keys[j])
  }

  lemma PutFirst(key: string, rest: seq<string>)
    requires IsIndex(key) && Ascending(rest) && forall k :: k in rest ==> IsIndex(k) && NumberOf(key) <= NumberOf(k)
    ensures Ascending([key] + rest)
  {
  }

  lemma {:induction false} ByNumberAscends(key: string, keys: seq<string>)
    requires IsIndex(key) && (forall k :: k in keys ==> IsIndex(k)) && Ascending(keys)
    ensures Ascending(ByNumber(key, keys))
  {
    if keys != [] {
      forall k | k in keys[1..] ensures NumberOf(keys[0]) <= NumberOf(k) {
        var i :| 0 <= i < |keys[1..]| && keys[1..][i] == k;
        assert keys[i + 1] == k;
      }
      if NumberOf(key) < NumberOf(keys[0]) {
        assert keys == [keys[0]] + keys[1..];
        PutFirst(key, keys);
      } else {
        ByNumberAscends(key, keys[1..]);
        PutFirst(keys[0], ByNumber(key, keys[1..]));
      }
    }
  }

  lemma {:induction false} IndicesAscend(keys: seq<string>)
    ensures Ascending(Indices(keys))
  {
    if keys != [] {
      IndicesAscend(keys[1..]);
      if IsIndex(keys[0]) {
        ByNumberAscends(keys[0], Indices(keys[1..]));
      }
    }
  }

  lemma {:induction false} NamesInOrder(keys: seq<string>)
    requires InOrder(keys)
    ensures InOrder(Names(keys))
  {
    if keys != [] {
      NamesInOrder(keys[1..]);
      forall k | k in Names(keys[1..]) ensures Before(keys[0], k) {
        var i :| 0 <= i < |keys[1..]| && keys[1..][i] == k;
        assert keys[i + 1] == k;
      }
    }
  }

  /**
   In a canonical form every object lists its array indices first, in ascending order, and then its other
   keys in the order of code units, each with the canonical form of its value.
   */
  lemma CanonicalOrder(entries: seq<(string, Json)>) returns (indices: seq<string>, names: seq<string>)
    requires UniqueKeys(entries)
    ensures SortJson(Object(entries)).Object? && Keys(SortJson(Object(entries)).entries) == indices + names
    ensures Ascending(indices)
    ensures (forall key :: key in names ==> !IsIndex(key)) && InOrder(names)
    ensures forall i :: 0 <= i < |indices + names| ==>
              && (indices + names)[i] in Properties(entries)
              && SortJson(Object(entries)).entries[i].1 == SortJson(Properties(entries)[(indices + names)[i]])
  {
    var sorted := Sorted(Keys(entries));
    SortedInOrder(Keys(entries));
    indices, names := Indices(sorted), Names(sorted);
    IndicesAscend(sorted);
    NamesInOrder(sorted);
    assert Order(entries) == indices + names;
    var after := SortJson(Object(entries)).entries;
    assert |after| == |Order(entries)|;
    forall i | 0 <= i < |after| ensures after[i].0 == Order(entries)[i] && Order(entries)[i] in Properties(entries)
                                       && after[i].1 == SortJson(Properties(entries)[Order(entries)[i]]) {
      assert Order(entries)[i] in Order(entries);
    }
  }

  /** What is digested depends on the meaning alone, and tells meanings apart as far as the printer does. */
  lemma DigestInput(a: Json, b: Json, printed: Json -> string)
    requires Valid(a) && Valid(b)
    ensures Means(a) == Means(b) ==> printed(SortJson(a)) == printed(SortJson(b))
    ensures (forall x, y :: printed(x) == printed(y) ==> x == y) ==>
              (printed(SortJson(a)) == printed(SortJson(b)) <==> Means(a) == Means(b))
  {
    SameFormExactly(a, b);
  }
}

/** The package list of a release manifest. */
module ReleaseManifest {
  import opened Prelude
  import opened CanonicalJson

  datatype PackageError = WrongCount | NotNamed(entry: nat) | NotPublished(entry: nat) | Duplicate(name: string) | Absent(name: string)

  lemma {:induction false} CountsOfDistinct(names: seq<string>)
    ensures NoRepeats(names) <==> forall name :: multiset(names)[name] == if name in names then 1 else 0
  {
    if names != [] {
      var (rest, last) := (names[..|names| - 1], names[|names| - 1]);
      CountsOfDistinct(rest);
      assert names == rest + [last];
      forall name ensures multiset(names)[name] == multiset(rest)[name] + if name == last then 1 else 0 {
        assert multiset(names) == multiset(rest) + multiset([last]);
      }
      if forall name :: multiset(names)[name] == if name in names then 1 else 0 {
        assert last !in rest by {
          assert multiset(names)[last] == 1;
        }
      }
    }
  }

  /** Two lists without repetitions that name the same packages are rearrangements of each other. */
  lemma Rearranged(names: seq<string>, published: seq<string>)
    requires NoRepeats(published)
    ensures multiset(names) == multiset(published)
            <==> NoRepeats(names) && KeySet(names) == KeySet(published)
  {
    CountsOfDistinct(names);
    CountsOfDistinct(published);
    forall name ensures name in names <==> name in KeySet(names) {}
    forall name ensures name in published <==> name in KeySet(published) {}
    if multiset(names) == multiset(published) {
      forall name ensures name in names <==> name in published {
        assert name in multiset(names) <==> name in multiset(published);
      }
      assert KeySet(names) == KeySet(published);
    }
  }

  function Known(names: seq<Option<string>>): (r: seq<string>)
    ensures |r| <= |names| && (|r| == |names| <==> forall i :: 0 <= i < |names| ==> names[i].Some?)
  {
    if names == [] then []
    else
      var (rest, last) := (Known(names[..|names| - 1]), names[|names| - 1]);
      if last.Some? then rest + [last.value] else rest
  }

  /** Every entry is named, with a published name, and none twice. */
  ghost predicate Clean(names: seq<Option<string>>, published: seq<string>) {
    |Known(names)| == |names| && NoRepeats(Known(names)) && KeySet(Known(names)) <= KeySet(published)
  }

  lemma CleanAfter(names: seq<Option<string>>, next: Option<string>, published: seq<string>)
    ensures KeySet(Known(names + [next])) == KeySet(Known(names)) + if next.Some? then {next.value} else {}
    ensures Clean(names + [next], published)
            <==> && Clean(names, published)
                 && next.Some? && next.value in published && next.value !in KeySet(Known(names))
  {
    assert (names + [next])[..|names|] == names;
    if next.Some? {
      RepeatsAfter(Known(names), next.value);
      assert Known(names + [next]) == Known(names) + [next.value];
    }
  }

  /** What each error says of the list. */
  ghost predicate Found(e: PackageError, names: seq<Option<string>>, published: seq<string>) {
    match e
    case WrongCount => |names| != |published|
    case NotNamed(i) => i < |names| && names[i].None?
    case NotPublished(i) => i < |names| && names[i].Some? && names[i].value !in published
    case Duplicate(name) => Repeated(names, name)
    case Absent(name) => name in published && Some(name) !in names
  }

  ghost predicate Repeated(names: seq<Option<string>>, name: string) {
    exists i, j :: 0 <= i < j < |names| && names[i] == names[j] == Some(name)
  }

  /** The errors that the first loop finds in the entries it has seen. */
  ghost predicate FoundSoFar(e: PackageError, names: seq<Option<string>>, published: seq<string>, seen: seq<Option<string>>) {
    if e.WrongCount? then |names| != |published| else !e.Absent? && Found(e, seen, published)
  }

  lemma {:induction false} KnownNames(names: seq<Option<string>>, name: string)
    ensures name in Known(names) <==> Some(name) in names
  {
    if names != [] {
      var (rest, last) := (names[..|names| - 1], names[|names| - 1]);
      KnownNames(rest, name);
      assert names == rest + [last];
    }
  }

  /** One more entry adds the errors about it, and no others. */
  lemma FoundNext(e: PackageError, seen: seq<Option<string>>, next: Option<string>, published: seq<string>)
    requires !e.WrongCount? && !e.Absent?
    ensures Found(e, seen + [next], published)
            <==> || Found(e, seen, published)
                 || (next.None? && e == NotNamed(|seen|))
                 || (next.Some? && next.value !in published && e == NotPublished(|seen|))
                 || (next.Some? && next.value in Known(seen) && e == Duplicate(next.value))
  {
    var after := seen + [next];
    if e.Duplicate? {
      KnownNames(seen, e.name);
      if i, j :| 0 <= i < j < |seen| && seen[i] == seen[j] == Some(e.name) {
        assert after[i] == after[j] == Some(e.name);
      }
      if next == Some(e.name) && Some(e.name) in seen {
        var i :| 0 <= i < |seen| && seen[i] == Some(e.name);
        assert after[i] == after[|seen|] == Some(e.name);
      }
    }
  }

  /** The first pass: the count, and each entry in turn. */
  method CheckEntries(names: seq<Option<string>>, published: seq<string>) returns (errors: seq<PackageError>, seen: set<string>)
    requires NoRepeats(published)
    ensures seen == KeySet(Known(names))
    ensures errors == [] <==> |names| == |published| && Clean(names, published)
    ensures forall e :: e in errors <==> FoundSoFar(e, names, published, names)
  {
    errors := if |names| != |published| then [WrongCount] else [];
    seen := {};
    for index := 0 to |names|
      invariant seen == KeySet(Known(names[..index]))
      invariant errors == [] <==> |names| == |published| && Clean(names[..index], published)
      invariant forall e :: e in errors <==> FoundSoFar(e, names, published, names[..index])
    {
      assert names[..index + 1] == names[..index] + [names[index]];
      CleanAfter(names[..index], names[index], published);
      forall e: PackageError | !e.WrongCount? && !e.Absent? ensures Found(e, names[..index + 1], published)
          <==> || Found(e, names[..index], published)
               || (names[index].None? && e == NotNamed(index))
               || (names[index].Some? && names[index].value !in published && e == NotPublished(index))
               || (names[index].Some? && names[index].value in seen && e == Duplicate(names[index].value))
      {
        FoundNext(e, names[..index], names[index], published);
      }
      if names[index].None? {
        errors := errors + [NotNamed(index)];
      } else {
        var name := names[index].value;
        if name !in published {
          errors := errors + [NotPublished(index)];
        }
        if name in seen {
          errors := errors + [Duplicate(name)];
        }
        seen := seen + {name};
      }
    }
    assert names[..|names|] == names;
  }

  /** An entry without a name stands for one that is not an object, or whose name is not a string. */
  method CheckPackages(names: seq<Option<string>>, published: seq<string>) returns (errors: seq<PackageError>)
    requires NoRepeats(published)
    ensures errors == [] <==> |Known(names)| == |names| && multiset(Known(names)) == multiset(published)
    ensures forall e :: e in errors <==> Found(e, names, published)
  {
    var seen;
    errors, seen := CheckEntries(names, published);
    for index := 0 to |published|
      invariant errors == [] <==>
                |names| == |published| && Clean(names, published) && forall i :: 0 <= i < index ==> published[i] in seen
      invariant forall e :: e in errors <==>
                  FoundSoFar(e, names, published, names) || (e.Absent? && e.name in published[..index] && e.name !in seen)
    {
      assert published[..index + 1] == published[..index] + [published[index]];
      if published[index] !in seen {
        errors := errors + [Absent(published[index])];
      }
    }
    CleanExactly(names, published);
    assert published[..|published|] == published;
    forall name ensures name in seen <==> Some(name) in names {
      KnownNames(names, name);
    }
  }

  lemma CleanExactly(names: seq<Option<string>>, published: seq<string>)
    requires NoRepeats(published)
    ensures && |names| == |published| && Clean(names, published)
            && (forall i :: 0 <= i < |published| ==> published[i] in KeySet(Known(names)))
            <==> |Known(names)| == |names| && multiset(Known(names)) == multiset(published)
  {
    Rearranged(Known(names), published);
    assert |multiset(Known(names))| == |Known(names)| && |multiset(published)| == |published|;
    assert KeySet(published) <= KeySet(Known(names)) <==> forall i :: 0 <= i < |published| ==> published[i] in KeySet(Known(names));
  }

  lemma RepeatsAfter(names: seq<string>, name: string)
    ensures KeySet(names + [name]) == KeySet(names) + {name}
    ensures NoRepeats(names + [name]) <==> NoRepeats(names) && name !in KeySet(names)
  {
    var after := names + [name];
    assert after[|names|] == name;
    if NoRepeats(after) {
      forall i | 0 <= i < |names| ensures names[i] != name {
        assert after[i] == names[i];
      }
      forall i, j | 0 <= i < j < |names| ensures names[i] != names[j] {
        assert after[i] != after[j];
      }
    }
  }
}

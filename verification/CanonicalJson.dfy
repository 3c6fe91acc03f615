/**
 The canonical printer behind the mentor page's digests: object keys sorted by UTF-16 code unit at
 every level, arrays in order, everything else as `JSON.stringify` prints it. Two values are
 printed alike exactly when they differ in nothing but the order of object keys.
 */
module CanonicalJson {
  import opened Common
  import opened JsonText
  import opened Utf16

  // ---- Keys in code-unit order. ----

  predicate Less(a: Text, b: Text) {
    b != [] && (a == [] || a[0] < b[0] || (a[0] == b[0] && Less(a[1..], b[1..])))
  }

  /** Where the texts first differ, the first one has ended or has the smaller unit. */
  predicate SmallerAt(a: Text, b: Text, n: nat) {
    n <= |a| && n < |b| && a[..n] == b[..n] && (n == |a| || a[n] < b[n])
  }

  /** The order in which keys are printed: by UTF-16 code units, ascending, a prefix before what extends it. */
  lemma {:induction false} LessExactly(a: Text, b: Text)
    ensures Less(a, b) <==> exists n: nat :: SmallerAt(a, b, n)
  {
    if b != [] && a != [] && a[0] == b[0] {
      LessExactly(a[1..], b[1..]);
      if n: nat :| SmallerAt(a[1..], b[1..], n) {
        assert a[..n + 1] == [a[0]] + a[1..][..n] && b[..n + 1] == [b[0]] + b[1..][..n];
        assert SmallerAt(a, b, n + 1);
      }
      if n: nat :| SmallerAt(a, b, n) {
        assert n > 0;
        assert a[1..][..n - 1] == a[..n][1..] && b[1..][..n - 1] == b[..n][1..];
        assert SmallerAt(a[1..], b[1..], n - 1);
      }
    } else {
      assert Less(a, b) ==> SmallerAt(a, b, 0);
      if n: nat :| SmallerAt(a, b, n) {
        assert n > 0 ==> a[..n][0] == b[..n][0];
      }
    }
  }

  lemma {:induction false} LessIsTotal(a: Text, b: Text)
    ensures Less(a, b) || a == b || Less(b, a)
    ensures !(Less(a, b) && Less(b, a))
    ensures a == b ==> !Less(a, b)
  {
    if a != [] && b != [] {
      LessIsTotal(a[1..], b[1..]);
      assert a == [a[0]] + a[1..] && b == [b[0]] + b[1..];
    }
  }

  lemma {:induction false} LessIsTransitive(a: Text, b: Text, c: Text)
    requires Less(a, b) && Less(b, c)
    ensures Less(a, c)
  {
    if a != [] && a[0] == b[0] && b[0] == c[0] {
      LessIsTransitive(a[1..], b[1..], c[1..]);
    }
  }

  predicate Sorted(keys: seq<Text>) {
    forall i, j :: 0 <= i < j < |keys| ==> !Less(keys[j], keys[i])
  }

  predicate Distinct(keys: seq<Text>) {
    forall i, j :: 0 <= i < j < |keys| ==> keys[i] != keys[j]
  }

  function Insert(key: Text, keys: seq<Text>): (r: seq<Text>)
    ensures multiset(r) == multiset(keys) + multiset{key}
  {
    if keys == [] then [key]
    else if Less(keys[0], key) then
      assert keys == [keys[0]] + keys[1..];
      [keys[0]] + Insert(key, keys[1..])
    else [key] + keys
  }

  /** `keys.sort()`. That any sorting algorithm gives this list is SortedIsUnique. */
  function SortKeys(keys: seq<Text>): (r: seq<Text>)
    ensures multiset(r) == multiset(keys)
    ensures |r| == |keys|
  {
    if keys == [] then []
    else
      assert keys == [keys[0]] + keys[1..];
      assert |multiset(keys)| == |keys| && |multiset(Insert(keys[0], SortKeys(keys[1..])))| == |keys|;
      Insert(keys[0], SortKeys(keys[1..]))
  }

  lemma {:induction false} InsertKeepsSorted(key: Text, keys: seq<Text>)
    requires Sorted(keys)
    ensures Sorted(Insert(key, keys))
  {
    var r := Insert(key, keys);
    if keys == [] {
    } else if Less(keys[0], key) {
      InsertKeepsSorted(key, keys[1..]);
      var rest := Insert(key, keys[1..]);
      forall j | 0 <= j < |rest| ensures !Less(rest[j], keys[0]) {
        assert rest[j] in multiset(rest);
        LessIsTotal(keys[0], key);
      }
    } else {
      forall j | 0 <= j < |keys| ensures !Less(keys[j], key) {
        LessIsTotal(keys[0], key);
        LessIsTotal(keys[0], keys[j]);
        if Less(keys[j], key) && keys[0] != keys[j] {
          LessIsTransitive(keys[0], keys[j], key);
        }
      }
    }
  }

  lemma {:induction false} SortKeysSorts(keys: seq<Text>)
    ensures Sorted(SortKeys(keys))
  {
    if keys != [] {
      SortKeysSorts(keys[1..]);
      InsertKeepsSorted(keys[0], SortKeys(keys[1..]));
    }
  }

  lemma TailMultiset(keys: seq<Text>)
    requires keys != []
    ensures multiset(keys[1..]) == multiset(keys) - multiset{keys[0]}
  {
    assert keys == [keys[0]] + keys[1..];
  }

  lemma SortedStartsAlike(a: seq<Text>, b: seq<Text>)
    requires Sorted(a) && Sorted(b) && multiset(a) == multiset(b) && a != []
    ensures b != [] && a[0] == b[0]
  {
    assert a[0] in multiset(b);
    assert b[0] in multiset(a);
    LessIsTotal(a[0], b[0]);
  }

  lemma {:induction false} SortedIsUnique(a: seq<Text>, b: seq<Text>)
    requires Sorted(a) && Sorted(b) && multiset(a) == multiset(b)
    ensures a == b
  {
    if a != [] {
      SortedStartsAlike(a, b);
      TailMultiset(a);
      TailMultiset(b);
      SortedIsUnique(a[1..], b[1..]);
      assert a == [a[0]] + a[1..] && b == [b[0]] + b[1..];
    } else {
      assert |multiset(b)| == 0;
    }
  }

  lemma {:induction false} DistinctMeansOnce(keys: seq<Text>, key: Text)
    ensures Distinct(keys) ==> multiset(keys)[key] == if key in keys then 1 else 0
  {
    if keys != [] && Distinct(keys) {
      assert keys == [keys[0]] + keys[1..];
      DistinctMeansOnce(keys[1..], key);
    }
  }

  lemma OnceMeansDistinct(keys: seq<Text>)
    requires forall key :: multiset(keys)[key] <= 1
    ensures Distinct(keys)
  {
    forall i, j | 0 <= i < j < |keys| ensures keys[i] != keys[j] {
      assert keys == keys[..j] + ([keys[j]] + keys[j + 1..]);
      assert keys[..j][i] in multiset(keys[..j]);
      assert multiset(keys) == multiset(keys[..j]) + (multiset{keys[j]} + multiset(keys[j + 1..]));
      assert multiset(keys)[keys[j]] <= 1;
    }
  }

  lemma SortKeepsDistinct(keys: seq<Text>)
    requires Distinct(keys)
    ensures Distinct(SortKeys(keys))
  {
    forall key ensures multiset(SortKeys(keys))[key] <= 1 {
      DistinctMeansOnce(keys, key);
    }
    OnceMeansDistinct(SortKeys(keys));
  }

  lemma SameKeysSortAlike(a: seq<Text>, b: seq<Text>)
    requires Distinct(a) && Distinct(b)
    requires forall key :: key in a <==> key in b
    ensures SortKeys(a) == SortKeys(b)
  {
    forall key ensures multiset(a)[key] == multiset(b)[key] {
      DistinctMeansOnce(a, key);
      DistinctMeansOnce(b, key);
    }
    assert multiset(a) == multiset(b);
    SortKeysSorts(a);
    SortKeysSorts(b);
    SortedIsUnique(SortKeys(a), SortKeys(b));
  }

  // ---- Values. ----

  function Keys(members: seq<Member>): (r: seq<Text>)
    ensures |r| == |members|
    ensures forall i :: 0 <= i < |r| ==> r[i] == members[i].key
  {
    if members == [] then [] else [members[0].key] + Keys(members[1..])
  }

  /** `value[key]`. */
  function Lookup(members: seq<Member>, key: Text): (v: Json)
    requires key in Keys(members)
    ensures exists i :: 0 <= i < |members| && members[i].key == key && members[i].value == v
  {
    if members[0].key == key then members[0].value
    else
      assert Keys(members)[0] != key;
      assert members[1..] == members[1..];
      Lookup(members[1..], key)
  }

  /** No JavaScript object has the same key twice. */
  predicate WellFormed(v: Json) {
    match v
    case Array(items) => forall i :: 0 <= i < |items| ==> WellFormed(items[i])
    case Object(members) =>
      Distinct(Keys(members)) && forall i :: 0 <= i < |members| ==> WellFormed(members[i].value)
    case _ => true
  }

  /** Equal up to the order of object keys, at every level. */
  ghost predicate Same(v: Json, w: Json) {
    match v
    case Array(items) =>
      w.Array? && |w.items| == |items| && forall i :: 0 <= i < |items| ==> Same(items[i], w.items[i])
    case Object(members) =>
      && w.Object?
      && (forall key :: key in Keys(members) <==> key in Keys(w.members))
      && (forall i :: 0 <= i < |members| && members[i].key in Keys(w.members) ==>
            Same(members[i].value, Lookup(w.members, members[i].key)))
    case _ => v == w
  }

  // ---- The printer. ----

  function CanonicalJson(v: Json): Text
    decreases v, 1
  {
    match v
    case Array(items) => [LBRACKET] + CanonicalItems(items) + [RBRACKET]
    case Object(members) =>
      assert forall key :: key in SortKeys(Keys(members)) ==> key in multiset(SortKeys(Keys(members)));
      [LBRACE] + CanonicalEntries(SortKeys(Keys(members)), members) + [RBRACE]
    case _ => Stringify(v)
  }

  function CanonicalItems(items: seq<Json>): Text
    decreases items, 0
  {
    if items == [] then []
    else if |items| == 1 then CanonicalJson(items[0])
    else CanonicalJson(items[0]) + [COMMA] + CanonicalItems(items[1..])
  }

  function CanonicalEntries(keys: seq<Text>, members: seq<Member>): Text
    requires forall key :: key in keys ==> key in Keys(members)
    decreases members, 0, |keys|
  {
    if keys == [] then []
    else
      var entry := Quote(keys[0]) + [COLON] + CanonicalJson(Lookup(members, keys[0]));
      if |keys| == 1 then entry else entry + [COMMA] + CanonicalEntries(keys[1..], members)
  }

  // ---- The value the printed text denotes. ----

  /** The value with the keys of every object sorted. */
  function Canon(v: Json): Json
    decreases v, 1
  {
    match v
    case Array(items) => Array(CanonItems(items))
    case Object(members) =>
      assert forall key :: key in SortKeys(Keys(members)) ==> key in multiset(SortKeys(Keys(members)));
      Object(CanonMembers(SortKeys(Keys(members)), members))
    case _ => v
  }

  function CanonItems(items: seq<Json>): seq<Json>
    decreases items, 0
  {
    if items == [] then [] else [Canon(items[0])] + CanonItems(items[1..])
  }

  function CanonMembers(keys: seq<Text>, members: seq<Member>): seq<Member>
    requires forall key :: key in keys ==> key in Keys(members)
    decreases members, 0, |keys|
  {
    if keys == [] then []
    else [Member(keys[0], Canon(Lookup(members, keys[0])))] + CanonMembers(keys[1..], members)
  }

  // ---- Lookup and sorting under canonicalisation. ----

  lemma DistinctAt(keys: seq<Text>, i: nat, j: nat)
    requires Distinct(keys) && i < |keys| && j < |keys| && keys[i] == keys[j]
    ensures i == j
  {
  }

  lemma LookupAt(members: seq<Member>, i: nat)
    requires i < |members| && Distinct(Keys(members))
    ensures members[i].key in Keys(members)
    ensures Lookup(members, members[i].key) == members[i].value
  {
    assert Keys(members)[i] == members[i].key;
    var j: nat :| j < |members| && members[j].key == members[i].key
             && members[j].value == Lookup(members, members[i].key);
    DistinctAt(Keys(members), i, j);
  }

  lemma {:induction false} CanonItemsAt(items: seq<Json>)
    ensures |CanonItems(items)| == |items|
    ensures forall i :: 0 <= i < |items| ==> CanonItems(items)[i] == Canon(items[i])
  {
    if items != [] {
      CanonItemsAt(items[1..]);
    }
  }

  lemma {:induction false} CanonMembersAt(keys: seq<Text>, members: seq<Member>)
    requires forall key :: key in keys ==> key in Keys(members)
    ensures |CanonMembers(keys, members)| == |keys|
    ensures Keys(CanonMembers(keys, members)) == keys
    ensures forall i :: 0 <= i < |keys| ==> CanonMembers(keys, members)[i].key == keys[i]
    ensures forall i :: 0 <= i < |keys| ==> CanonMembers(keys, members)[i].value == Canon(Lookup(members, keys[i]))
  {
    if keys != [] {
      CanonMembersAt(keys[1..], members);
    }
  }

  /** The members of the canonical form of an object. */
  function SortedMembers(members: seq<Member>): (r: seq<Member>)
    ensures Canon(Object(members)) == Object(r)
  {
    Canon(Object(members)).members
  }

  lemma SortedKeysAreKeys(keys: seq<Text>)
    ensures forall key :: key in SortKeys(keys) <==> key in keys
  {
    forall key ensures key in SortKeys(keys) <==> key in keys {
      assert key in multiset(SortKeys(keys)) <==> key in multiset(keys);
    }
  }

  lemma SortedMembersKeys(members: seq<Member>)
    ensures |SortedMembers(members)| == |SortKeys(Keys(members))| == |members|
    ensures Keys(SortedMembers(members)) == SortKeys(Keys(members))
  {
    SortedMembersAre(members);
    SortedKeysAreKeys(Keys(members));
    CanonMembersKeys(SortKeys(Keys(members)), members);
  }

  lemma SortedMembersAre(members: seq<Member>)
    ensures forall key :: key in SortKeys(Keys(members)) ==> key in Keys(members)
    ensures SortedMembers(members) == CanonMembers(SortKeys(Keys(members)), members)
  {
    SortedKeysAreKeys(Keys(members));
  }

  lemma CanonMembersKeys(keys: seq<Text>, members: seq<Member>)
    requires forall key :: key in keys ==> key in Keys(members)
    ensures |CanonMembers(keys, members)| == |keys| && Keys(CanonMembers(keys, members)) == keys
  {
    CanonMembersAt(keys, members);
  }

  lemma SortedMemberAt(members: seq<Member>, i: nat)
    requires i < |members|
    ensures SortKeys(Keys(members))[i] in Keys(members)
    ensures |SortedMembers(members)| == |members|
    ensures SortedMembers(members)[i] ==
            Member(SortKeys(Keys(members))[i], Canon(Lookup(members, SortKeys(Keys(members))[i])))
  {
    SortedKeysAreKeys(Keys(members));
    CanonMembersAt(SortKeys(Keys(members)), members);
  }

  // ---- What the printer prints. ----

  /** The canonical text is the ordinary text of the key-sorted value. */
  lemma {:induction false} CanonicalJsonPrintsCanon(v: Json)
    ensures CanonicalJson(v) == Stringify(Canon(v))
    decreases v, 1
  {
    match v
    case Array(items) => ItemsPrintCanon(items);
    case Object(members) =>
      SortedKeysAreKeys(Keys(members));
      EntriesPrintCanon(SortKeys(Keys(members)), members);
    case _ =>
  }

  lemma {:induction false} ItemsPrintCanon(items: seq<Json>)
    ensures CanonicalItems(items) == StringifyItems(CanonItems(items))
    decreases items, 0
  {
    if items != [] {
      CanonicalJsonPrintsCanon(items[0]);
      ItemsPrintCanon(items[1..]);
      assert CanonItems(items)[1..] == CanonItems(items[1..]);
      CanonItemsAt(items);
    }
  }

  lemma {:induction false} EntriesPrintCanon(keys: seq<Text>, members: seq<Member>)
    requires forall key :: key in keys ==> key in Keys(members)
    ensures CanonicalEntries(keys, members) == StringifyMembers(CanonMembers(keys, members))
    decreases members, 0, |keys|
  {
    if keys != [] {
      CanonicalJsonPrintsCanon(Lookup(members, keys[0]));
      EntriesPrintCanon(keys[1..], members);
      assert CanonMembers(keys, members)[1..] == CanonMembers(keys[1..], members);
      CanonMembersAt(keys, members);
    }
  }

  /** Reading canonical text back gives the key-sorted value. */
  lemma CanonicalTextParses(v: Json)
    ensures Parse(CanonicalJson(v)) == Some(Canon(v))
  {
    CanonicalJsonPrintsCanon(v);
    ParseInvertsStringify(Canon(v));
  }

  // ---- Same values have the same canonical form, and only they do. ----

  lemma {:induction false} SameHaveOneCanon(v: Json, w: Json)
    requires WellFormed(v) && WellFormed(w) && Same(v, w)
    ensures Canon(v) == Canon(w)
    decreases v
  {
    match v
    case Array(items) =>
      forall i | 0 <= i < |items| ensures Canon(items[i]) == Canon(w.items[i]) {
        SameHaveOneCanon(items[i], w.items[i]);
      }
      CanonItemsAt(items);
      CanonItemsAt(w.items);
      assert CanonItems(items) == CanonItems(w.items);
    case Object(members) =>
      forall i | 0 <= i < |members|
        ensures members[i].key in Keys(w.members)
        ensures Canon(members[i].value) == Canon(Lookup(w.members, members[i].key))
      {
        assert Keys(members)[i] == members[i].key;
        SameHaveOneCanon(members[i].value, Lookup(w.members, members[i].key));
      }
      forall key | key in Keys(members) ensures Canon(Lookup(members, key)) == Canon(Lookup(w.members, key)) {
        var i :| 0 <= i < |members| && members[i].key == key && members[i].value == Lookup(members, key);
      }
      SameMembersHaveOneCanon(members, w.members);
    case _ =>
  }

  /** The two objects have the same keys, with values of the same canonical form. */
  ghost predicate SameCanonByKey(ms: seq<Member>, ns: seq<Member>) {
    && (forall key :: key in Keys(ms) <==> key in Keys(ns))
    && (forall key :: key in Keys(ms) ==> Canon(Lookup(ms, key)) == Canon(Lookup(ns, key)))
  }

  lemma SameCanonAt(ms: seq<Member>, ns: seq<Member>, i: nat)
    requires SortKeys(Keys(ms)) == SortKeys(Keys(ns)) && SameCanonByKey(ms, ns)
    requires i < |ms| == |ns|
    ensures |SortedMembers(ms)| == |ms| && |SortedMembers(ns)| == |ns|
    ensures SortedMembers(ms)[i] == SortedMembers(ns)[i]
  {
    SortedMemberAt(ms, i);
    SortedMemberAt(ns, i);
  }

  lemma SameMembersHaveOneCanon(ms: seq<Member>, ns: seq<Member>)
    requires Distinct(Keys(ms)) && Distinct(Keys(ns)) && SameCanonByKey(ms, ns)
    ensures SortedMembers(ms) == SortedMembers(ns)
  {
    SameKeysSortAlike(Keys(ms), Keys(ns));
    SortedMembersKeys(ms);
    SortedMembersKeys(ns);
    forall i | 0 <= i < |ms| ensures SortedMembers(ms)[i] == SortedMembers(ns)[i] {
      SameCanonAt(ms, ns, i);
    }
  }

  lemma {:induction false} OneCanonMeansSame(v: Json, w: Json)
    requires WellFormed(v) && WellFormed(w) && Canon(v) == Canon(w)
    ensures Same(v, w)
    decreases v
  {
    match v
    case Array(items) =>
      CanonItemsAt(items);
      CanonItemsAt(w.items);
      forall i | 0 <= i < |items| ensures Same(items[i], w.items[i]) {
        assert CanonItems(items)[i] == CanonItems(w.items)[i];
        OneCanonMeansSame(items[i], w.items[i]);
      }
    case Object(members) =>
      OneCanonSameMembers(members, w.members);
      forall i | 0 <= i < |members| && members[i].key in Keys(w.members)
        ensures Same(members[i].value, Lookup(w.members, members[i].key))
      {
        LookupAt(members, i);
        OneCanonMeansSame(members[i].value, Lookup(w.members, members[i].key));
      }
    case _ =>
  }

  lemma OneCanonSameMembers(ms: seq<Member>, ns: seq<Member>)
    requires SortedMembers(ms) == SortedMembers(ns)
    ensures SameCanonByKey(ms, ns)
  {
    SortedMembersKeys(ms);
    SortedMembersKeys(ns);
    SortedKeysAreKeys(Keys(ms));
    SortedKeysAreKeys(Keys(ns));
    var keys := SortKeys(Keys(ms));
    forall key | key in Keys(ms) ensures Canon(Lookup(ms, key)) == Canon(Lookup(ns, key)) {
      var j :| 0 <= j < |keys| && keys[j] == key;
      SortedMemberAt(ms, j);
      SortedMemberAt(ns, j);
    }
  }

  /** Two values print to one canonical text exactly when they are equal up to key order. */
  lemma EqualTextMeansSame(v: Json, w: Json)
    requires WellFormed(v) && WellFormed(w)
    ensures CanonicalJson(v) == CanonicalJson(w) <==> Same(v, w)
  {
    CanonicalTextParses(v);
    CanonicalTextParses(w);
    CanonicalJsonPrintsCanon(v);
    CanonicalJsonPrintsCanon(w);
    if Same(v, w) {
      SameHaveOneCanon(v, w);
    } else if Canon(v) == Canon(w) {
      OneCanonMeansSame(v, w);
    }
  }

  // ---- Printing what was read back changes nothing. ----

  lemma {:induction false} CanonIsCanonical(v: Json)
    requires WellFormed(v)
    ensures WellFormed(Canon(v)) && Canon(Canon(v)) == Canon(v)
    decreases v
  {
    match v
    case Array(items) =>
      CanonItemsAt(items);
      CanonItemsAt(CanonItems(items));
      forall i | 0 <= i < |items|
        ensures WellFormed(CanonItems(items)[i]) && Canon(CanonItems(items)[i]) == CanonItems(items)[i]
      {
        CanonIsCanonical(items[i]);
      }
      assert CanonItems(CanonItems(items)) == CanonItems(items);
    case Object(members) =>
      SortedMembersKeys(members);
      SortKeepsDistinct(Keys(members));
      forall i | 0 <= i < |members|
        ensures WellFormed(SortedMembers(members)[i].value)
        ensures Canon(SortedMembers(members)[i].value) == SortedMembers(members)[i].value
      {
        SortedMemberAt(members, i);
        CanonIsCanonical(Lookup(members, SortKeys(Keys(members))[i]));
      }
      SortingTwice(SortedMembers(members), Keys(members));
    case _ =>
  }

  lemma SortingTwice(sorted: seq<Member>, original: seq<Text>)
    requires Keys(sorted) == SortKeys(original) && Distinct(Keys(sorted))
    requires forall i :: 0 <= i < |sorted| ==> Canon(sorted[i].value) == sorted[i].value
    ensures SortedMembers(sorted) == sorted
  {
    SortKeysSorts(original);
    SortKeysSorts(Keys(sorted));
    SortedIsUnique(SortKeys(Keys(sorted)), Keys(sorted));
    SortedMembersKeys(sorted);
    forall i | 0 <= i < |sorted| ensures SortedMembers(sorted)[i] == sorted[i] {
      SortedMemberAt(sorted, i);
      LookupAt(sorted, i);
    }
  }

  /** Parsing canonical text and printing the result again is the identity. */
  lemma ReprintingIsIdentity(v: Json)
    requires WellFormed(v)
    ensures Parse(CanonicalJson(v)).Some?
    ensures WellFormed(Parse(CanonicalJson(v)).value) && Same(Parse(CanonicalJson(v)).value, v)
    ensures CanonicalJson(Parse(CanonicalJson(v)).value) == CanonicalJson(v)
  {
    CanonicalTextParses(v);
    CanonIsCanonical(v);
    CanonicalJsonPrintsCanon(v);
    CanonicalJsonPrintsCanon(Canon(v));
    OneCanonMeansSame(Canon(v), v);
  }
}

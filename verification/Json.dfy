/**
 * JSON as the dedup key sees it: parse trees, what they mean, the sorted form that
 * serde_json's `Map` keeps, and the compact text it is written as (RFC 8259).
 *
 * Number tokens are abstract: whatever the library prints for a number it has read.
 */
module Json {
  import opened Upstreams

  datatype Member<+T> = Member(key: string, value: T)

  /** A parse tree: members in source order, repeated keys and all. */
  datatype Json =
    | Null
    | Bool(b: bool)
    | Number(token: string)
    | Str(s: string)
    | Arr(items: seq<Json>)
    | Obj(members: seq<Member<Json>>)

  // What a tree means: objects are unordered, and the last of repeated keys wins

  datatype Value =
    | NullValue
    | BoolValue(b: bool)
    | NumberValue(token: string)
    | StrValue(s: string)
    | ArrValue(items: seq<Value>)
    | ObjValue(members: map<string, Value>)

  function Meaning(j: Json): Value
    decreases j, 1
  {
    match j
    case Null => NullValue
    case Bool(b) => BoolValue(b)
    case Number(token) => NumberValue(token)
    case Str(s) => StrValue(s)
    case Arr(items) => ArrValue(MeaningOfAll(items))
    case Obj(members) => ObjValue(MapOf(members))
  }

  function MeaningOfAll(items: seq<Json>): (vs: seq<Value>)
    ensures |vs| == |items|
    decreases items, 0
  {
    if items == [] then [] else [Meaning(items[0])] + MeaningOfAll(items[1..])
  }

  function MapOf(members: seq<Member<Json>>): map<string, Value>
    decreases members, 0
  {
    if members == [] then map[]
    else map[members[0].key := Meaning(members[0].value)] + MapOf(members[1..])
  }

  lemma {:induction false} MapKeys(members: seq<Member<Json>>, key: string)
    ensures key in MapOf(members) <==> exists i :: 0 <= i < |members| && members[i].key == key
  {
    if members != [] {
      MapKeys(members[1..], key);
      if key in MapOf(members[1..]) {
        var i :| 0 <= i < |members[1..]| && members[1..][i].key == key;
        assert members[i + 1].key == key;
      }
      forall i | 0 < i < |members| ensures members[i] == members[1..][i - 1] { }
    }
  }

  // The order of keys

  predicate Before(a: string, b: string) {
    b != [] && (a == [] || a[0] < b[0] || (a[0] == b[0] && Before(a[1..], b[1..])))
  }

  lemma {:induction false} BeforeTransitive(a: string, b: string, c: string)
    requires Before(a, b) && Before(b, c)
    ensures Before(a, c)
  {
    if a != [] && a[0] == b[0] == c[0] {
      BeforeTransitive(a[1..], b[1..], c[1..]);
    }
  }

  lemma {:induction false} BeforeTotal(a: string, b: string)
    ensures Before(a, b) || a == b || Before(b, a)
    ensures !(Before(a, b) && Before(b, a)) && !Before(a, a)
  {
    if a != [] {
      BeforeTotal(a[1..], if b == [] then [] else b[1..]);
      BeforeTotal(a[1..], a[1..]);
      assert b != [] && a[0] == b[0] && a[1..] == b[1..] ==> a == [a[0]] + a[1..] == [b[0]] + b[1..] == b;
    }
  }

  predicate Sorted<T>(members: seq<Member<T>>) {
    forall i, j :: 0 <= i < j < |members| ==> Before(members[i].key, members[j].key)
  }

  // The sorted form

  function Insert<T>(members: seq<Member<T>>, key: string, value: T): (r: seq<Member<T>>)
    ensures forall m :: m in r ==> m in members || m == Member(key, value)
  {
    if members == [] || Before(key, members[0].key) then [Member(key, value)] + members
    else if key == members[0].key then [Member(key, value)] + members[1..]
    else [members[0]] + Insert(members[1..], key, value)
  }

  /** The value under a key; in a sorted object there is at most one. */
  function Find<T>(members: seq<Member<T>>, key: string): Option<T> {
    if members == [] then None
    else if members[0].key == key then Some(members[0].value)
    else Find(members[1..], key)
  }

  function Norm(j: Json): Json
    decreases j, 1
  {
    match j
    case Arr(items) => Arr(NormAll(items))
    case Obj(members) => Obj(Collect([], members))
    case _ => j
  }

  function NormAll(items: seq<Json>): (r: seq<Json>)
    ensures |r| == |items|
    decreases items, 0
  {
    if items == [] then [] else [Norm(items[0])] + NormAll(items[1..])
  }

  /** Members are inserted in source order; a repeated key replaces the earlier value. */
  function Collect(sofar: seq<Member<Json>>, members: seq<Member<Json>>): seq<Member<Json>>
    decreases members, 0
  {
    if members == [] then sofar
    else Collect(Insert(sofar, members[0].key, Norm(members[0].value)), members[1..])
  }

  ghost predicate Normal(j: Json) {
    match j
    case Arr(items) => forall i :: 0 <= i < |items| ==> Normal(items[i])
    case Obj(members) => Sorted(members) && forall i :: 0 <= i < |members| ==> Normal(members[i].value)
    case _ => true
  }

  ghost predicate AllNormal(members: seq<Member<Json>>) {
    forall m :: m in members ==> Normal(m.value)
  }

  lemma ConsSorted<T>(head: Member<T>, rest: seq<Member<T>>)
    requires Sorted(rest) && forall m :: m in rest ==> Before(head.key, m.key)
    ensures Sorted([head] + rest)
  {
  }

  lemma TailSorted<T>(members: seq<Member<T>>)
    requires Sorted(members) && members != []
    ensures Sorted(members[1..])
    ensures forall m :: m in members[1..] ==> Before(members[0].key, m.key) && m.key != members[0].key
  {
    forall i | 0 <= i < |members[1..]|
      ensures Before(members[0].key, members[1..][i].key) && members[1..][i].key != members[0].key
    {
      assert Before(members[0].key, members[i + 1].key);
      BeforeTotal(members[0].key, members[0].key);
    }
  }

  lemma HeadIsAlone(members: seq<Member<Json>>)
    requires Sorted(members) && members != []
    ensures members[0].key !in MapOf(members[1..])
  {
    TailSorted(members);
    MapKeys(members[1..], members[0].key);
  }

  lemma MapOfNone()
    ensures MapOf([]) == map[]
  {
  }

  lemma ConsMap(head: Member<Json>, rest: seq<Member<Json>>)
    ensures MapOf([head] + rest) == map[head.key := Meaning(head.value)] + MapOf(rest)
  {
    assert ([head] + rest)[1..] == rest;
  }

  lemma {:induction false} InsertSorted<T>(members: seq<Member<T>>, key: string, value: T)
    requires Sorted(members)
    ensures Sorted(Insert(members, key, value))
  {
    if members != [] {
      var head, rest := members[0], members[1..];
      TailSorted(members);
      BeforeTotal(key, head.key);
      if Before(key, head.key) {
        forall m | m in members ensures Before(key, m.key) {
          if m != head { assert m in rest; BeforeTransitive(key, head.key, m.key); }
        }
        ConsSorted(Member(key, value), members);
      } else if key == head.key {
        ConsSorted(Member(key, value), rest);
      } else {
        InsertSorted(rest, key, value);
        ConsSorted(head, Insert(rest, key, value));
      }
    }
  }

  lemma UpdateInTail<K, V>(h: K, x: V, m: map<K, V>, k: K, y: V)
    requires k != h
    ensures map[h := x] + m[k := y] == (map[h := x] + m)[k := y]
  {
  }

  lemma UpdateHead<K, V>(h: K, x: V, y: V, m: map<K, V>)
    requires h !in m
    ensures map[h := y] + m == (map[h := x] + m)[h := y]
  {
  }

  lemma UpdateThenAdd<K, V>(a: map<K, V>, k: K, y: V, m: map<K, V>)
    ensures a[k := y] + m == a + (map[k := y] + m)
    ensures k !in m ==> map[k := y] + m == m[k := y]
  {
  }

  lemma {:induction false} InsertMeans(members: seq<Member<Json>>, key: string, value: Json)
    requires Sorted(members)
    ensures MapOf(Insert(members, key, value)) == MapOf(members)[key := Meaning(value)]
  {
    hide Meaning, Sorted, Before, MapOf;
    var y := Meaning(value);
    if members == [] {
      assert [Member(key, value)] + [] == Insert(members, key, value);
      MapOfNone();
      ConsMap(Member(key, value), []);
      UpdateThenAdd(map[], key, y, MapOf([]));
    } else {
      var head, rest := members[0], members[1..];
      TailSorted(members);
      HeadIsAlone(members);
      assert [head] + rest == members;
      ConsMap(head, rest);
      if Before(key, head.key) {
        ConsMap(Member(key, value), members);
        NotAmong(members, key);
        UpdateThenAdd(map[], key, y, MapOf(members));
      } else if key == head.key {
        ConsMap(Member(key, value), rest);
        UpdateHead(key, Meaning(head.value), y, MapOf(rest));
      } else {
        InsertMeans(rest, key, value);
        ConsMap(head, Insert(rest, key, value));
        UpdateInTail(head.key, Meaning(head.value), MapOf(rest), key, y);
      }
    }
  }

  lemma NotAmong(members: seq<Member<Json>>, key: string)
    requires Sorted(members) && members != [] && Before(key, members[0].key)
    ensures key !in MapOf(members)
  {
    TailSorted(members);
    forall i | 0 <= i < |members| ensures members[i].key != key {
      BeforeTotal(key, members[0].key);
      if i > 0 {
        assert members[i] in members[1..];
        BeforeTransitive(key, members[0].key, members[i].key);
        BeforeTotal(key, members[i].key);
      }
    }
    MapKeys(members, key);
  }

  /** Sorting keeps the meaning and reaches the normal form. */
  lemma {:induction false} NormMeans(j: Json)
    ensures Meaning(Norm(j)) == Meaning(j) && Normal(Norm(j))
    decreases j, 1
  {
    hide Before, Insert;
    match j
    case Arr(items) => NormAllMeans(items);
    case Obj(members) => CollectMeans([], members);
    case _ =>
  }

  lemma {:induction false} NormAllMeans(items: seq<Json>)
    ensures MeaningOfAll(NormAll(items)) == MeaningOfAll(items)
    ensures forall i :: 0 <= i < |items| ==> Normal(NormAll(items)[i])
    decreases items, 0
  {
    if items != [] {
      NormMeans(items[0]);
      NormAllMeans(items[1..]);
      assert NormAll(items)[1..] == NormAll(items[1..]);
    }
  }

  lemma {:induction false} CollectMeans(sofar: seq<Member<Json>>, members: seq<Member<Json>>)
    requires Sorted(sofar) && AllNormal(sofar)
    ensures Sorted(Collect(sofar, members)) && AllNormal(Collect(sofar, members))
    ensures MapOf(Collect(sofar, members)) == MapOf(sofar) + MapOf(members)
    decreases members, 0
  {
    hide Normal, Sorted, Insert, Meaning, MapOf;
    if members == [] {
      MapOfNone();
    } else {
      var key, value := members[0].key, Norm(members[0].value);
      NormMeans(members[0].value);
      InsertSorted(sofar, key, value);
      InsertMeans(sofar, key, value);
      CollectMeans(Insert(sofar, key, value), members[1..]);
      assert [members[0]] + members[1..] == members;
      ConsMap(members[0], members[1..]);
      UpdateThenAdd(MapOf(sofar), key, Meaning(value), MapOf(members[1..]));
    }
  }

  // Equal meanings have equal normal forms

  lemma {:induction false} NormalIsUnique(a: Json, b: Json)
    requires Normal(a) && Normal(b) && Meaning(a) == Meaning(b)
    ensures a == b
    decreases a, 1
  {
    match a
    case Arr(items) => ItemsAreUnique(items, b.items);
    case Obj(members) => MembersAreUnique(members, b.members);
    case _ =>
  }

  lemma {:induction false} ItemsAreUnique(a: seq<Json>, b: seq<Json>)
    requires forall i :: 0 <= i < |a| ==> Normal(a[i])
    requires forall i :: 0 <= i < |b| ==> Normal(b[i])
    requires MeaningOfAll(a) == MeaningOfAll(b)
    ensures a == b
    decreases a, 0
  {
    if a != [] {
      assert Meaning(a[0]) == MeaningOfAll(a)[0] == MeaningOfAll(b)[0] == Meaning(b[0]);
      assert MeaningOfAll(a[1..]) == MeaningOfAll(a)[1..] == MeaningOfAll(b)[1..] == MeaningOfAll(b[1..]);
      NormalIsUnique(a[0], b[0]);
      ItemsAreUnique(a[1..], b[1..]);
      assert a == [a[0]] + a[1..] && b == [b[0]] + b[1..];
    }
  }

  /** The first key of a sorted object is the least of its keys. */
  lemma LeastKey(a: seq<Member<Json>>, key: string)
    requires Sorted(a) && a != [] && key in MapOf(a)
    ensures key == a[0].key || Before(a[0].key, key)
  {
    MapKeys(a, key);
    var i :| 0 <= i < |a| && a[i].key == key;
    if i > 0 {
      TailSorted(a);
      assert a[i] in a[1..];
    }
  }

  lemma EmptyMap(a: seq<Member<Json>>)
    ensures MapOf(a) == map[] <==> a == []
  {
    if a != [] { assert a[0].key in MapOf(a); }
  }

  lemma SplitHead<K, V>(h: K, x: V, y: V, m: map<K, V>, n: map<K, V>)
    requires h !in m && h !in n && map[h := x] + m == map[h := y] + n
    ensures x == y && m == n
  {
    assert x == (map[h := x] + m)[h] == (map[h := y] + n)[h] == y;
    assert m == (map[h := x] + m) - {h};
    assert n == (map[h := y] + n) - {h};
  }

  lemma {:induction false} MembersAreUnique(a: seq<Member<Json>>, b: seq<Member<Json>>)
    requires Sorted(a) && Sorted(b) && AllNormal(a) && AllNormal(b) && MapOf(a) == MapOf(b)
    ensures a == b
    decreases a, 0
  {
    hide Meaning, MapOf, Before;
    EmptyMap(a);
    EmptyMap(b);
    if a != [] {
      assert [a[0]] + a[1..] == a && [b[0]] + b[1..] == b;
      ConsMap(a[0], a[1..]);
      ConsMap(b[0], b[1..]);
      LeastKey(a, b[0].key);
      LeastKey(b, a[0].key);
      BeforeTotal(a[0].key, b[0].key);
      TailSorted(a);
      TailSorted(b);
      HeadIsAlone(a);
      HeadIsAlone(b);
      SplitHead(a[0].key, Meaning(a[0].value), Meaning(b[0].value), MapOf(a[1..]), MapOf(b[1..]));
      NormalIsUnique(a[0].value, b[0].value);
      MembersAreUnique(a[1..], b[1..]);
    }
  }

  /** Two trees sort to the same form exactly when they are equal as JSON values. */
  lemma NormIsCanonical(a: Json, b: Json)
    ensures Norm(a) == Norm(b) <==> Meaning(a) == Meaning(b)
  {
    NormMeans(a);
    NormMeans(b);
    if Meaning(a) == Meaning(b) {
      NormalIsUnique(Norm(a), Norm(b));
    }
  }
}

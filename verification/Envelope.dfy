/**
 * Handing one reply to many callers (src/jsonrpc/mod.rs:205-228, src/proxy/mod.rs:158-194).
 *
 * A body is the members of its top-level object as written: the key, whether it is
 * written with escapes, and the raw text of the value.
 */
module Envelope {
  import opened Upstreams
  import opened Json
  import opened SingleFlight

  datatype Field = Field(key: string, escaped: bool, raw: string)

  /** None for a body that is not a JSON object. */
  type Body = Option<seq<Field>>

  const ID := "id"

  // Reading the id

  function IdsOf(fields: seq<Field>): seq<string> {
    if fields == [] then []
    else (if fields[0].key == ID then [fields[0].raw] else []) + IdsOf(fields[1..])
  }

  /** The raw text of the id: none when it is missing, and none when it is repeated. */
  function RequestId(body: Body): Option<string> {
    if body.Some? && |IdsOf(body.value)| == 1 then Some(IdsOf(body.value)[0]) else None
  }

  ghost predicate TheOnlyId(fields: seq<Field>, i: int) {
    0 <= i < |fields| && fields[i].key == "id" && forall j :: 0 <= j < |fields| && j != i ==> fields[j].key != "id"
  }

  lemma {:induction false} IdsAre(fields: seq<Field>)
    ensures IdsOf(fields) == [] <==> forall i :: 0 <= i < |fields| ==> fields[i].key != "id"
    ensures |IdsOf(fields)| == 1 ==> exists i :: TheOnlyId(fields, i) && fields[i].raw == IdsOf(fields)[0]
    ensures |IdsOf(fields)| > 1 ==> exists i, j :: 0 <= i < j < |fields| && fields[i].key == fields[j].key == "id"
  {
    if fields != [] {
      var rest := fields[1..];
      IdsAre(rest);
      assert forall i :: 0 < i < |fields| ==> fields[i] == rest[i - 1];
      if fields[0].key == "id" {
        if IdsOf(rest) == [] {
          assert TheOnlyId(fields, 0);
        } else {
          var j :| 0 <= j < |rest| && rest[j].key == "id";
          assert fields[j + 1].key == "id";
        }
      } else if |IdsOf(rest)| == 1 {
        var i :| TheOnlyId(rest, i) && rest[i].raw == IdsOf(rest)[0];
        assert TheOnlyId(fields, i + 1) && fields[i + 1] == rest[i];
      } else if |IdsOf(rest)| > 1 {
        var i, j :| 0 <= i < j < |rest| && rest[i].key == rest[j].key == "id";
        assert fields[i + 1] == rest[i] && fields[j + 1] == rest[j];
      }
    }
  }

  /** A request's id is the raw text of its one member called `id`; a body that is not an
      object, or has no such member or several, has none. */
  lemma IdIsRead(body: Body, v: string)
    ensures RequestId(body) == Some(v) <==>
            body.Some? && exists i :: TheOnlyId(body.value, i) && body.value[i].raw == v
  {
    if body.Some? { IdsAre(body.value); }
  }

  // Swapping the id

  /** The envelope borrows its keys from the body, so an escaped key cannot be read; the
      last of repeated keys wins. */
  predicate Borrowable(body: Body) {
    body.Some? && forall i :: 0 <= i < |body.value| ==> !body.value[i].escaped
  }

  function Unpack(sofar: seq<Member<string>>, fields: seq<Field>): seq<Member<string>>
    decreases |fields|
  {
    if fields == [] then sofar
    else Unpack(Insert(sofar, fields[0].key, fields[0].raw), fields[1..])
  }

  /** Written in key order, each raw value as it came. */
  function Pack(envelope: seq<Member<string>>): seq<Field> {
    if envelope == [] then []
    else [Field(envelope[0].key, false, envelope[0].value)] + Pack(envelope[1..])
  }

  function Readdressed(body: Body, id: string): Body {
    if Borrowable(body) then Some(Pack(Insert(Unpack([], body.value), ID, id))) else None
  }

  method Readdress(body: Body, id: string) returns (readdressed: Body)
    ensures readdressed == Readdressed(body, id)
  {
    if !Borrowable(body) {
      return None;
    }
    var envelope: seq<Member<string>> := [];
    var fields := body.value;
    for i := 0 to |fields|
      invariant Unpack([], fields) == Unpack(envelope, fields[i..])
    {
      assert fields[i..][1..] == fields[i + 1..];
      envelope := Insert(envelope, fields[i].key, fields[i].raw);
    }
    assert fields[|fields|..] == [];
    envelope := Insert(envelope, ID, id);
    readdressed := Some(Pack(envelope));
  }

  // What survives

  /** The raw text under a key, as a reader that lets the last of repeated keys win sees it. */
  function Raw(fields: seq<Field>, key: string): Option<string> {
    if fields == [] then None
    else
      var last := fields[|fields| - 1];
      if last.key == key then Some(last.raw) else Raw(fields[..|fields| - 1], key)
  }

  lemma {:induction false} FindAfterInsert<T>(members: seq<Member<T>>, key: string, value: T, k: string)
    requires Sorted(members)
    ensures Find(Insert(members, key, value), k) == if k == key then Some(value) else Find(members, k)
  {
    if members != [] {
      TailSorted(members);
      FindAfterInsert(members[1..], key, value, k);
      BeforeTotal(key, members[0].key);
    }
  }

  lemma {:induction false} UnpackSorted(sofar: seq<Member<string>>, fields: seq<Field>)
    requires Sorted(sofar)
    ensures Sorted(Unpack(sofar, fields))
    decreases |fields|
  {
    if fields != [] {
      InsertSorted(sofar, fields[0].key, fields[0].raw);
      UnpackSorted(Insert(sofar, fields[0].key, fields[0].raw), fields[1..]);
    }
  }

  lemma {:induction false} UnpackPush(sofar: seq<Member<string>>, fields: seq<Field>, last: Field)
    ensures Unpack(sofar, fields + [last]) == Insert(Unpack(sofar, fields), last.key, last.raw)
    decreases |fields|
  {
    if fields == [] {
      assert [last][1..] == [];
      assert fields + [last] == [last];
    } else {
      assert (fields + [last])[1..] == fields[1..] + [last];
      UnpackPush(Insert(sofar, fields[0].key, fields[0].raw), fields[1..], last);
    }
  }

  lemma {:induction false} UnpackFinds(fields: seq<Field>, key: string)
    ensures Find(Unpack([], fields), key) == Raw(fields, key)
  {
    if fields != [] {
      var init, last := fields[..|fields| - 1], fields[|fields| - 1];
      assert fields == init + [last];
      UnpackFinds(init, key);
      UnpackPush([], init, last);
      UnpackSorted([], init);
      FindAfterInsert(Unpack([], init), last.key, last.raw, key);
    }
  }

  /** A sorted envelope is written with each key once. */
  lemma {:induction false} PackReads(envelope: seq<Member<string>>, key: string)
    requires Sorted(envelope)
    ensures |Pack(envelope)| == |envelope|
    ensures forall i :: 0 <= i < |envelope| ==> Pack(envelope)[i] == Field(envelope[i].key, false, envelope[i].value)
    ensures Raw(Pack(envelope), key) == Find(envelope, key)
    ensures IdsOf(Pack(envelope)) == if Find(envelope, ID).Some? then [Find(envelope, ID).value] else []
  {
    if envelope != [] {
      var head := Field(envelope[0].key, false, envelope[0].value);
      TailSorted(envelope);
      PackReads(envelope[1..], key);
      RawCons(head, Pack(envelope[1..]), key);
      assert ([head] + Pack(envelope[1..]))[1..] == Pack(envelope[1..]);
      Absent(envelope[1..], envelope[0].key);
    }
  }

  lemma {:induction false} Absent<T>(members: seq<Member<T>>, key: string)
    requires forall m :: m in members ==> m.key != key
    ensures Find(members, key).None?
  {
    if members != [] {
      Absent(members[1..], key);
    }
  }

  lemma {:induction false} RawCons(head: Field, rest: seq<Field>, key: string)
    ensures Raw([head] + rest, key) ==
            if Raw(rest, key).Some? then Raw(rest, key) else if head.key == key then Some(head.raw) else None
  {
    if rest != [] {
      var init := rest[..|rest| - 1];
      assert ([head] + rest)[..|rest|] == [head] + init;
      RawCons(head, init, key);
    }
  }

  /** A re-addressed reply carries the caller's id, and every other member keeps its raw
      text; reading the id back gives the caller's own.  It fails exactly for a body that
      is not an object or that escapes a key.  The members are written in key order. */
  lemma OnlyTheIdChanges(body: Body, id: string, key: string)
    ensures Readdressed(body, id).Some? <==> Borrowable(body)
    ensures Borrowable(body) ==>
              var out := Readdressed(body, id);
              && RequestId(out) == Some(id)
              && Raw(out.value, key) == (if key == "id" then Some(id) else Raw(body.value, key))
              && Borrowable(out)
              && forall i, j :: 0 <= i < j < |out.value| ==> Before(out.value[i].key, out.value[j].key)
  {
    if Borrowable(body) {
      var envelope := Unpack([], body.value);
      UnpackSorted([], body.value);
      UnpackFinds(body.value, key);
      InsertSorted(envelope, ID, id);
      FindAfterInsert(envelope, ID, id, key);
      FindAfterInsert(envelope, ID, id, ID);
      PackReads(Insert(envelope, ID, id), key);
    }
  }

  /** An object that is not re-addressed: one key written with an escape is enough. */
  lemma EscapedKeyIsRefused(raw: string, id: string)
    ensures Readdressed(Some([Field("result", true, raw)]), id).None?
  {
    var fields := [Field("result", true, raw)];
    assert fields[0].escaped;
  }

  /** Re-addressing again leaves no trace of the first id. */
  lemma LastIdWins(body: Body, first: string, second: string, key: string)
    requires Borrowable(body)
    ensures var once := Readdressed(body, first);
            && Readdressed(once, second).Some?
            && Raw(Readdressed(once, second).value, key) == Raw(Readdressed(body, second).value, key)
  {
    OnlyTheIdChanges(body, first, key);
    OnlyTheIdChanges(body, second, key);
    OnlyTheIdChanges(Readdressed(body, first), second, key);
  }

  // The follower's side of a flight

  datatype Answer = Answer(httpStatus: nat, body: Body)

  function Coalesced(id: string, role: Role, shared: Answer, alone: Answer): Answer {
    if role.Leader? then shared
    else if Borrowable(shared.body) then Answer(shared.httpStatus, Readdressed(shared.body, id))
    else alone
  }

  /** `shared` is the flight's answer and `alone` what the request would get on its own.
      A body without a key or an id is never coalesced; a follower that cannot be given
      its own id runs alone.  `coalesced` is whether the observer counts it. */
  method Coalesce(key: Option<string>, id: Option<string>, role: Role, shared: Answer, alone: Answer)
    returns (answer: Answer, coalesced: bool)
    ensures coalesced <==> key.Some? && id.Some? && role.Follower? && Borrowable(shared.body)
    ensures coalesced ==> answer.httpStatus == shared.httpStatus && answer.body == Readdressed(shared.body, id.value)
    ensures answer == if key.Some? && id.Some? then Coalesced(id.value, role, shared, alone) else alone
  {
    if key.None? || id.None? {
      return alone, false;
    }
    match role
    case Leader => return shared, false;
    case Follower(_) =>
      var body := Readdress(shared.body, id.value);
      if body.Some? {
        return Answer(shared.httpStatus, body), true;
      }
      return alone, false;
  }
}

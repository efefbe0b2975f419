/** The pure parts of the hub client (custom_components/shadeauto/api.py):
    the search for records in a decoded response, the body of a
    `/NM/v1/control` request and the thing-name rule of the registration
    handshake.  The HTTP transport is not modelled. */
module Api {
  import opened Wrappers
  import opened Json
  import opened PyText

  /** `list(_find_dicts_with_key(obj, key))`: the dicts of the tree that
      hold `key`, in the order the generator yields them. */
  function FindDictsWithKey(j: Json, key: string): (r: seq<Object>)
    ensures forall o :: o in r ==> HasKey(o, key)
    ensures !(j.JObj? || j.JArr?) ==> r == []
    decreases j
  {
    match j
    case JObj(fields) => (if HasKey(fields, key) then [fields] else []) + FindInFields(fields, key)
    case JArr(items) => FindInItems(items, key)
    case _ => []
  }

  /** `for item in obj: yield from ...` over a list */
  function FindInItems(items: seq<Json>, key: string): (r: seq<Object>)
    ensures forall o :: o in r ==> HasKey(o, key)
    decreases items
  {
    if items == [] then [] else FindDictsWithKey(items[0], key) + FindInItems(items[1..], key)
  }

  /** `for v in obj.values(): yield from ...` over a dict */
  function FindInFields(fields: seq<Field>, key: string): (r: seq<Object>)
    ensures forall o :: o in r ==> HasKey(o, key)
    decreases fields
  {
    if fields == [] then [] else FindDictsWithKey(fields[0].value, key) + FindInFields(fields[1..], key)
  }

  /** Every value of the tree in pre-order: each value before the values
      nested in it, list items and dict values in their order. */
  function Nodes(j: Json): (r: seq<Json>)
    ensures |r| >= 1 && r[0] == j
    decreases j
  {
    [j] + match j
          case JObj(fields) => NodesInFields(fields)
          case JArr(items) => NodesInItems(items)
          case _ => []
  }

  function NodesInItems(items: seq<Json>): seq<Json>
    decreases items
  {
    if items == [] then [] else Nodes(items[0]) + NodesInItems(items[1..])
  }

  function NodesInFields(fields: seq<Field>): seq<Json>
    decreases fields
  {
    if fields == [] then [] else Nodes(fields[0].value) + NodesInFields(fields[1..])
  }

  predicate IsDictWithKey(n: Json, key: string) {
    n.JObj? && HasKey(n.fields, key)
  }

  /** The dicts among `ns` that hold `key`, in order. */
  function Matching(ns: seq<Json>, key: string): seq<Object> {
    if ns == [] then []
    else (if IsDictWithKey(ns[0], key) then [ns[0].fields] else []) + Matching(ns[1..], key)
  }

  /** How many of `ns` are dicts holding `key`. */
  function CountMatching(ns: seq<Json>, key: string): nat {
    if ns == [] then 0
    else (if IsDictWithKey(ns[0], key) then 1 else 0) + CountMatching(ns[1..], key)
  }

  lemma {:induction false} MatchingAppend(a: seq<Json>, b: seq<Json>, key: string)
    ensures Matching(a + b, key) == Matching(a, key) + Matching(b, key)
  {
    if a != [] {
      MatchingAppend(a[1..], b, key);
      assert (a + b)[1..] == a[1..] + b;
    } else {
      assert a + b == b;
    }
  }

  lemma {:induction false} MatchingFacts(ns: seq<Json>, key: string)
    ensures |Matching(ns, key)| == CountMatching(ns, key)
    ensures forall n :: n in ns && IsDictWithKey(n, key) ==> n.fields in Matching(ns, key)
  {
    if ns != [] {
      MatchingFacts(ns[1..], key);
      forall n | n in ns && IsDictWithKey(n, key) ensures n.fields in Matching(ns, key) {
        if n != ns[0] { assert n in ns[1..]; }
      }
    }
  }

  /** The generator is the pre-order listing of the tree filtered down to
      the dicts that hold `key`. */
  lemma {:induction false} FindIsMatchingNodes(j: Json, key: string)
    ensures FindDictsWithKey(j, key) == Matching(Nodes(j), key)
    decreases j
  {
    match j
    case JObj(fields) =>
      FieldsAreMatchingNodes(fields, key);
      MatchingAppend([j], NodesInFields(fields), key);
    case JArr(items) =>
      ItemsAreMatchingNodes(items, key);
      MatchingAppend([j], NodesInItems(items), key);
    case _ =>
  }

  lemma {:induction false} ItemsAreMatchingNodes(items: seq<Json>, key: string)
    ensures FindInItems(items, key) == Matching(NodesInItems(items), key)
    decreases items
  {
    if items != [] {
      FindIsMatchingNodes(items[0], key);
      ItemsAreMatchingNodes(items[1..], key);
      MatchingAppend(Nodes(items[0]), NodesInItems(items[1..]), key);
    }
  }

  lemma {:induction false} FieldsAreMatchingNodes(fields: seq<Field>, key: string)
    ensures FindInFields(fields, key) == Matching(NodesInFields(fields), key)
    decreases fields
  {
    if fields != [] {
      FindIsMatchingNodes(fields[0].value, key);
      FieldsAreMatchingNodes(fields[1..], key);
      MatchingAppend(Nodes(fields[0].value), NodesInFields(fields[1..]), key);
    }
  }

  /** Completeness and count: every dict anywhere in the tree that holds
      `key` is yielded, and exactly as many items are yielded as there are
      such dicts. */
  lemma FindComplete(j: Json, key: string)
    ensures forall n :: n in Nodes(j) && IsDictWithKey(n, key) ==> n.fields in FindDictsWithKey(j, key)
    ensures |FindDictsWithKey(j, key)| == CountMatching(Nodes(j), key)
  {
    FindIsMatchingNodes(j, key);
    MatchingFacts(Nodes(j), key);
  }

  lemma {:induction false} NodesInFieldsHasChild(fields: seq<Field>, i: nat)
    requires i < |fields|
    ensures forall n :: n in Nodes(fields[i].value) ==> n in NodesInFields(fields)
    decreases fields
  {
    if i > 0 {
      NodesInFieldsHasChild(fields[1..], i - 1);
      assert fields[1..][i - 1] == fields[i];
    }
  }

  /** Pre-order: a dict holding `key` is yielded first, and everything found
      in its values (dicts nested in an already-yielded dict included)
      follows it. */
  lemma FindPreOrder(fields: seq<Field>, key: string, i: nat)
    requires HasKey(fields, key) && i < |fields|
    ensures FindDictsWithKey(JObj(fields), key)[0] == fields
    ensures forall o :: o in FindDictsWithKey(fields[i].value, key) ==> o in FindDictsWithKey(JObj(fields), key)[1..]
  {
    var r := FindDictsWithKey(JObj(fields), key);
    assert r[1..] == FindInFields(fields, key);
    FieldsAreMatchingNodes(fields, key);
    FindIsMatchingNodes(fields[i].value, key);
    NodesInFieldsHasChild(fields, i);
    MatchingFacts(NodesInFields(fields), key);
    forall o | o in FindDictsWithKey(fields[i].value, key) ensures o in r[1..] {
      MatchingMember(Nodes(fields[i].value), key, o);
    }
  }

  lemma {:induction false} MatchingMember(ns: seq<Json>, key: string, o: Object)
    requires o in Matching(ns, key)
    ensures JObj(o) in ns && IsDictWithKey(JObj(o), key)
  {
    if ns[0].JObj? && IsDictWithKey(ns[0], key) && o == ns[0].fields {
    } else {
      MatchingMember(ns[1..], key, o);
    }
  }

  /** List items are searched in order: the matches of a list are those of
      its first part followed by those of its second. */
  lemma {:induction false} FindInItemsAppend(a: seq<Json>, b: seq<Json>, key: string)
    ensures FindInItems(a + b, key) == FindInItems(a, key) + FindInItems(b, key)
  {
    if a != [] {
      FindInItemsAppend(a[1..], b, key);
      assert (a + b)[1..] == a[1..] + b;
    } else {
      assert a + b == b;
    }
  }

  /** The `uid` argument of `control`: an `int` or a `str`. */
  datatype Uid = UidInt(n: int) | UidText(s: string)

  /** `s.isdigit()`, for ASCII digits. */
  predicate IsDigits(s: string) {
    |s| > 0 && forall i :: 0 <= i < |s| ==> IsDigit(s[i])
  }

  /** `int(uid) if str(uid).isdigit() else uid`; for an `int` both
      branches give the same number. */
  function PayloadUid(uid: Uid): Json {
    match uid
    case UidInt(n) => JInt(n)
    case UidText(s) => if IsDigits(s) then JInt(DigitsValue(s)) else JStr(s)
  }

  /** The body `control` posts to `/NM/v1/control`; `now` is the wall-clock
      second. */
  function ControlPayload(uid: Uid, bottom: Option<int>, now: int): (p: Object)
    ensures Get(p, "TaskID") == JInt(1)
    ensures Get(p, "Timestamp") == JInt(now)
    ensures HasKey(p, "BottomRailPosition") <==> bottom.Some?
    ensures bottom.Some? ==> Get(p, "BottomRailPosition") == JInt(bottom.value)
    ensures Get(p, "PeripheralUID").JInt? <==> uid.UidInt? || IsDigits(uid.s)
    ensures uid.UidText? && !IsDigits(uid.s) ==> Get(p, "PeripheralUID") == JStr(uid.s)
    ensures uid.UidInt? ==> Get(p, "PeripheralUID") == JInt(uid.n)
    ensures uid.UidText? && IsDigits(uid.s) ==>
      ParseIntText(uid.s).Some? && Get(p, "PeripheralUID") == JInt(ParseIntText(uid.s).value)
  {
    var tail := if bottom.Some? then [Field("BottomRailPosition", JInt(bottom.value))] else [];
    var r2 := [Field("Timestamp", JInt(now))] + tail;
    var r1 := [Field("TaskID", JInt(1))] + r2;
    var p := [Field("PeripheralUID", PayloadUid(uid))] + r1;
    GetCons(Field("Timestamp", JInt(now)), tail, "BottomRailPosition");
    GetCons(Field("TaskID", JInt(1)), r2, "BottomRailPosition");
    GetCons(Field("PeripheralUID", PayloadUid(uid)), r1, "BottomRailPosition");
    GetCons(Field("TaskID", JInt(1)), r2, "Timestamp");
    GetCons(Field("PeripheralUID", PayloadUid(uid)), r1, "Timestamp");
    GetCons(Field("PeripheralUID", PayloadUid(uid)), r1, "TaskID");
    GetCons(Field("PeripheralUID", PayloadUid(uid)), r1, "PeripheralUID");
    if uid.UidText? && IsDigits(uid.s) then ParsePlainDigits(uid.s); p else p
  }

  /** The control body holds `PeripheralUID`, `TaskID` and `Timestamp`,
      and `BottomRailPosition` exactly when a bottom position is given;
      no other key. */
  lemma ControlPayloadKeys(uid: Uid, bottom: Option<int>, now: int)
    ensures |ControlPayload(uid, bottom, now)| == (if bottom.Some? then 4 else 3)
    ensures forall i :: 0 <= i < |ControlPayload(uid, bottom, now)| ==>
      ControlPayload(uid, bottom, now)[i].key in {"PeripheralUID", "TaskID", "Timestamp", "BottomRailPosition"}
  {
    var keys := {"PeripheralUID", "TaskID", "Timestamp", "BottomRailPosition"};
    var tail := if bottom.Some? then [Field("BottomRailPosition", JInt(bottom.value))] else [];
    var r2 := [Field("Timestamp", JInt(now))] + tail;
    var r1 := [Field("TaskID", JInt(1))] + r2;
    assert ControlPayload(uid, bottom, now) == [Field("PeripheralUID", PayloadUid(uid))] + r1;
    KeysInCons(Field("Timestamp", JInt(now)), tail, keys);
    KeysInCons(Field("TaskID", JInt(1)), r2, keys);
    KeysInCons(Field("PeripheralUID", PayloadUid(uid)), r1, keys);
  }

  /** The coordinator keys shades by `str` of the hub's integer id; such a
      key goes back to the hub as that integer. */
  lemma ControlUidRoundTrip(n: nat, bottom: Option<int>, now: int)
    ensures Get(ControlPayload(UidText(IntText(n)), bottom, now), "PeripheralUID") == JInt(n)
  {
    DecTextValue(n);
  }

  /** `registration`: the `thing_name` kept after the handshake reply
      `data` (`None` is JSON null). */
  function NextThingName(prev: Json, data: Json): (r: Json)
    ensures !data.JObj? ==> r == prev
    ensures data.JObj? && Truthy(Get(data.fields, "ThingName")) ==> r == Get(data.fields, "ThingName")
    ensures (data.JObj? && !Truthy(Get(data.fields, "ThingName")) && Truthy(Get(data.fields, "thingName")))
              ==> r == Get(data.fields, "thingName")
    ensures (data.JObj? && !Truthy(Get(data.fields, "ThingName")) && !Truthy(Get(data.fields, "thingName")))
              ==> r == prev
  {
    if data.JObj? then Or(Or(Get(data.fields, "ThingName"), Get(data.fields, "thingName")), prev) else prev
  }

  /** Repeating the handshake with the same reply changes nothing more. */
  lemma NextThingNameIdempotent(prev: Json, data: Json)
    ensures NextThingName(NextThingName(prev, data), data) == NextThingName(prev, data)
  {
  }
}

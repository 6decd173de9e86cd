/** The text whose hash identifies a content state: the objects in key order, as
    JSON with sorted members.  Two states share it exactly when they hold the
    same objects, contents compared up to member order. */
module StateText {
  import opened Prelude
  import opened Json
  import opened Canonical
  import opened CanonicalNumbers
  import opened CanonicalTheorems
  import opened CanonicalEquality
  import opened Content

  type BaseState = map<Uuid, Object>

  /** How the serializer writes identifiers, instants and floats. */
  datatype Codec = Codec(showUuid: Uuid -> string, showTime: Time -> string, showFloat: Float -> string)

  /** Each of them reads back. */
  ghost predicate Faithful(codec: Codec) {
    && (forall a, b :: codec.showUuid(a) == codec.showUuid(b) ==> a == b)
    && (forall a, b :: codec.showTime(a) == codec.showTime(b) ==> a == b)
    && ShowsFloats(codec.showFloat)
  }

  // ----- the objects in key order

  predicate IsLeast(k: Uuid, keys: set<Uuid>) {
    k in keys && forall j :: j in keys ==> k <= j
  }

  lemma {:induction false} FindLeast(keys: set<Uuid>) returns (least: Uuid)
    requires keys != {}
    ensures IsLeast(least, keys)
    decreases |keys|
  {
    var k :| k in keys;
    var rest := keys - {k};
    assert forall j :: j in keys <==> j == k || j in rest;
    if rest == {} {
      return k;
    }
    var m := FindLeast(rest);
    return if k <= m then k else m;
  }

  lemma LeastExists(keys: set<Uuid>)
    requires keys != {}
    ensures exists k :: IsLeast(k, keys)
  {
    var k := FindLeast(keys);
  }

  function SmallestKey(keys: set<Uuid>): (k: Uuid)
    requires keys != {}
    ensures IsLeast(k, keys)
  {
    LeastExists(keys);
    var k :| k in keys && IsLeast(k, keys);
    k
  }

  function InKeyOrder(state: BaseState): seq<Object>
    decreases |state|
  {
    if state == map[] then []
    else
      var k := SmallestKey(state.Keys);
      [state[k]] + InKeyOrder(state - {k})
  }

  predicate KeyedById(state: BaseState) {
    forall k :: k in state ==> state[k].id == k
  }

  // ----- objects as JSON

  function StatusName(status: ObjectStatus): string {
    match status
    case Draft => "draft"
    case Submitted => "submitted"
    case Approved => "approved"
    case Committed => "committed"
    case Published => "published"
  }

  const FIELD_NAMES: seq<string> := [
    "id", "schema_id", "schema_version", "locale", "content", "revision", "created_at", "updated_at", "status"]

  function FieldValues(codec: Codec, o: Object): (values: seq<Value>)
    ensures |values| == |FIELD_NAMES|
  {
    [Str(codec.showUuid(o.id)), Str(codec.showUuid(o.schemaId)), Num(Integer(o.schemaVersion)), Str(o.locale),
     o.content, Num(Integer(o.revision)), Str(codec.showTime(o.createdAt)), Str(codec.showTime(o.updatedAt)),
     Str(StatusName(o.status))]
  }

  function Fields(codec: Codec, o: Object): seq<Member> {
    seq(|FIELD_NAMES|, i requires 0 <= i < |FIELD_NAMES| => Member(FIELD_NAMES[i], FieldValues(codec, o)[i]))
  }

  function ObjectValue(codec: Codec, o: Object): Value {
    Obj(Fields(codec, o))
  }

  function ObjectList(codec: Codec, objects: seq<Object>): Value {
    Arr(seq(|objects|, i requires 0 <= i < |objects| => ObjectValue(codec, objects[i])))
  }

  /** A digest is represented by the text that is hashed. */
  datatype StateDigest = StateDigest(preimage: string)

  function DigestOf(codec: Codec, state: BaseState): StateDigest {
    StateDigest(Print(Normal(ObjectList(codec, InKeyOrder(state)), Written), Verbatim(codec.showFloat)))
  }

  // ----- what the text pins down

  /** Equal but for the order of members inside the content. */
  predicate SameObject(a: Object, b: Object) {
    a.(content := b.content) == b && Agree(a.content, b.content, Written)
  }

  predicate SameState(a: BaseState, b: BaseState) {
    a.Keys == b.Keys && forall k :: k in a.Keys ==> SameObject(a[k], b[k])
  }

  predicate SameObjects(a: seq<Object>, b: seq<Object>) {
    |a| == |b| && forall i :: 0 <= i < |a| ==> SameObject(a[i], b[i])
  }

  predicate WellFormedContents(state: BaseState) {
    forall k :: k in state ==> WellFormed(state[k].content)
  }

  lemma FieldNamesDistinct()
    ensures forall i, j :: 0 <= i < j < |FIELD_NAMES| ==> FIELD_NAMES[i] != FIELD_NAMES[j]
  {
    assert "locale"[0] != "status"[0] && "created_at"[0] != "updated_at"[0];
  }

  lemma FieldKeysDistinct(codec: Codec, o: Object)
    ensures DistinctKeys(Fields(codec, o))
  {
    hide FieldValues;
    FieldNamesDistinct();
    var fields := Fields(codec, o);
    assert forall i :: 0 <= i < |fields| ==> fields[i].key == FIELD_NAMES[i];
  }

  /** Under the same distinct names, agreement is member by member. */
  lemma SameKeysAgree(x: seq<Member>, y: seq<Member>, reading: Reading)
    requires DistinctKeys(x) && |x| == |y| && forall i :: 0 <= i < |x| ==> x[i].key == y[i].key
    ensures Agree(Obj(x), Obj(y), reading) <==> forall i :: 0 <= i < |x| ==> Agree(x[i].value, y[i].value, reading)
  {
    forall i | 0 <= i < |x| ensures Find(y, x[i].key) == i {
      assert y[i].key == x[i].key;
    }
  }

  lemma StatusNameInjective(a: ObjectStatus, b: ObjectStatus)
    requires StatusName(a) == StatusName(b)
    ensures a == b
  {
    assert StatusName(a)[0] == StatusName(b)[0] && |StatusName(a)| == |StatusName(b)|;
  }

  lemma ValuesAgreeIffSame(codec: Codec, a: Object, b: Object)
    requires Faithful(codec)
    ensures SameObject(a, b) <==>
      forall i :: 0 <= i < |FIELD_NAMES| ==> Agree(FieldValues(codec, a)[i], FieldValues(codec, b)[i], Written)
  {
    hide ShowsFloats;
    hide StatusName;
    var x, y := FieldValues(codec, a), FieldValues(codec, b);
    if forall i :: 0 <= i < |FIELD_NAMES| ==> Agree(x[i], y[i], Written) {
      assert Agree(x[0], y[0], Written) && Agree(x[1], y[1], Written) && Agree(x[2], y[2], Written);
      assert Agree(x[3], y[3], Written) && Agree(x[4], y[4], Written) && Agree(x[5], y[5], Written);
      assert Agree(x[6], y[6], Written) && Agree(x[7], y[7], Written) && Agree(x[8], y[8], Written);
      StatusNameInjective(a.status, b.status);
    }
  }

  lemma ObjectAgreesIffSame(codec: Codec, a: Object, b: Object)
    requires Faithful(codec)
    ensures Agree(ObjectValue(codec, a), ObjectValue(codec, b), Written) <==> SameObject(a, b)
  {
    hide FieldValues;
    hide Faithful;
    hide SameObject;
    hide Agree;
    var x, y := Fields(codec, a), Fields(codec, b);
    FieldKeysDistinct(codec, a);
    SameKeysAgree(x, y, Written);
    ValuesAgreeIffSame(codec, a, b);
    assert forall i :: 0 <= i < |FIELD_NAMES| ==>
      x[i].value == FieldValues(codec, a)[i] && y[i].value == FieldValues(codec, b)[i];
  }

  lemma ListAgreesIffSame(codec: Codec, a: seq<Object>, b: seq<Object>)
    requires Faithful(codec)
    ensures Agree(ObjectList(codec, a), ObjectList(codec, b), Written) <==> SameObjects(a, b)
  {
    hide ObjectValue;
    hide SameObject;
    hide Faithful;
    var x, y := ObjectList(codec, a).items, ObjectList(codec, b).items;
    forall i | 0 <= i < |a| && i < |b| ensures Agree(x[i], y[i], Written) <==> SameObject(a[i], b[i]) {
      ObjectAgreesIffSame(codec, a[i], b[i]);
    }
  }

  lemma ObjectWellFormed(codec: Codec, o: Object)
    requires WellFormed(o.content)
    ensures WellFormed(ObjectValue(codec, o))
  {
    FieldKeysDistinct(codec, o);
    var values, fields := FieldValues(codec, o), Fields(codec, o);
    assert forall i :: 0 <= i < |values| ==> WellFormed(values[i]);
    assert forall i :: 0 <= i < |fields| ==> fields[i].value == values[i];
  }

  lemma ListWellFormed(codec: Codec, state: BaseState)
    requires WellFormedContents(state)
    ensures WellFormed(ObjectList(codec, InKeyOrder(state)))
  {
    var objects := InKeyOrder(state);
    forall i | 0 <= i < |objects| ensures WellFormed(ObjectValue(codec, objects[i])) {
      ListedObject(state, i);
      ObjectWellFormed(codec, objects[i]);
    }
  }

  lemma {:induction false} ListedObject(state: BaseState, i: nat)
    requires i < |InKeyOrder(state)|
    ensures exists k :: k in state && state[k] == InKeyOrder(state)[i]
    decreases |state|
  {
    var k := SmallestKey(state.Keys);
    if i == 0 {
      assert k in state;
    } else {
      ListedObject(state - {k}, i - 1);
      var j :| j in state - {k} && (state - {k})[j] == InKeyOrder(state - {k})[i - 1];
      assert j in state && state[j] == InKeyOrder(state)[i];
    }
  }

  lemma {:induction false} SameObjectsIffSameState(a: BaseState, b: BaseState)
    requires KeyedById(a) && KeyedById(b)
    ensures SameObjects(InKeyOrder(a), InKeyOrder(b)) <==> SameState(a, b)
    decreases |a|
  {
    if a == map[] || b == map[] {
    } else {
      var j, k := SmallestKey(a.Keys), SmallestKey(b.Keys);
      var restA, restB := a - {j}, b - {k};
      var x, y := InKeyOrder(a), InKeyOrder(b);
      SameObjectsIffSameState(restA, restB);
      assert x[0] == a[j] && y[0] == b[k] && x[1..] == InKeyOrder(restA) && y[1..] == InKeyOrder(restB);
      SameObjectsSplit(x, y);
      if SameObjects(x, y) {
        assert j == k;
        forall m | m in a.Keys ensures m in b.Keys && SameObject(a[m], b[m]) {
          assert m != j ==> m in restA.Keys;
        }
        forall m | m in b.Keys ensures m in a.Keys {
          assert m != j ==> m in restB.Keys;
        }
      }
      if SameState(a, b) {
        assert j == k;
        assert restA.Keys == a.Keys - {j} && restB.Keys == b.Keys - {j};
        assert SameState(restA, restB);
      }
    }
  }

  lemma SameObjectsSplit(x: seq<Object>, y: seq<Object>)
    requires x != [] && y != []
    ensures SameObjects(x, y) <==> SameObject(x[0], y[0]) && SameObjects(x[1..], y[1..])
  {
    if SameObject(x[0], y[0]) && SameObjects(x[1..], y[1..]) {
      forall i | 0 <= i < |x| ensures SameObject(x[i], y[i]) {
        if i > 0 {
          assert x[i] == x[1..][i - 1] && y[i] == y[1..][i - 1];
        }
      }
    }
  }

  /** The digest of a state pins down its objects, up to the order of members in
      their contents, and nothing more. */
  lemma DigestPinsState(codec: Codec, a: BaseState, b: BaseState)
    requires Faithful(codec) && KeyedById(a) && KeyedById(b) && WellFormedContents(a) && WellFormedContents(b)
    ensures DigestOf(codec, a) == DigestOf(codec, b) <==> SameState(a, b)
  {
    hide SameState;
    hide SameObjects;
    hide Agree;
    hide WellFormed;
    var x, y := ObjectList(codec, InKeyOrder(a)), ObjectList(codec, InKeyOrder(b));
    ListWellFormed(codec, a);
    ListWellFormed(codec, b);
    SortedTextIffAgree(x, y, Written, Verbatim(codec.showFloat));
    ListAgreesIffSame(codec, InKeyOrder(a), InKeyOrder(b));
    SameObjectsIffSameState(a, b);
  }
}

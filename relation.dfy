/** The two byte-level transforms of gosiuml's relation records
    (`map_obj_to_obj`, `apply_person_model`) on the 16-byte `PhenoRelation`. */
module PhenoRelations {
  import opened PhenoPlatform

  /** The sixteen byte fields of a relation, as one value. */
  datatype RelationValue = RelationValue(
    subjectId: bv8, subjectType: bv8, subjectState: bv8, subjectClass: bv8,
    classId: bv8, classCategory: bv8, classTaxonomy: bv8, classLevel: bv8,
    instanceId: bv8, instanceType: bv8, instanceState: bv8, instanceFlags: bv8,
    personId: bv8, personRole: bv8, personAuth: bv8, personState: bv8)

  /** `PhenoRelation`: a record both transforms update in place through a pointer. */
  class Relation {
    var subjectId: bv8
    var subjectType: bv8
    var subjectState: bv8
    var subjectClass: bv8
    var classId: bv8
    var classCategory: bv8
    var classTaxonomy: bv8
    var classLevel: bv8
    var instanceId: bv8
    var instanceType: bv8
    var instanceState: bv8
    var instanceFlags: bv8
    var personId: bv8
    var personRole: bv8
    var personAuth: bv8
    var personState: bv8

    constructor (v: RelationValue)
      ensures Value() == v
    {
      subjectId, subjectType, subjectState, subjectClass := v.subjectId, v.subjectType, v.subjectState, v.subjectClass;
      classId, classCategory, classTaxonomy, classLevel := v.classId, v.classCategory, v.classTaxonomy, v.classLevel;
      instanceId, instanceType, instanceState, instanceFlags := v.instanceId, v.instanceType, v.instanceState, v.instanceFlags;
      personId, personRole, personAuth, personState := v.personId, v.personRole, v.personAuth, v.personState;
    }

    function Value(): RelationValue
      reads this
    {
      RelationValue(subjectId, subjectType, subjectState, subjectClass,
                    classId, classCategory, classTaxonomy, classLevel,
                    instanceId, instanceType, instanceState, instanceFlags,
                    personId, personRole, personAuth, personState)
    }
  }

  // ---------------------------------------------------------------------------
  // map_obj_to_obj
  // ---------------------------------------------------------------------------

  /** The record `map_obj_to_obj(src, dst)` leaves in `dst`: subject and class ids
      XOR-merged, instance state OR-merged, person state taken from `src`
      rotated left by two; the other twelve fields of `dst` stay. */
  function MapObjToObjValue(src: RelationValue, dst: RelationValue): RelationValue {
    dst.(subjectId := src.subjectId ^ dst.subjectId,
         classId := src.classId ^ dst.classId,
         instanceState := dst.instanceState | src.instanceState,
         personState := RotateLeftMacro(src.personState, 2))
  }

  /** `map_obj_to_obj`. Only the four named fields of `dst` may change, so the
      other twelve fields of `dst` and every field of a distinct `src` keep their
      values. The two pointers may be equal; every field is read before it is
      written, so each new field is computed from the old records in both cases,
      field for field as `MapObjToObjValue` says. */
  method MapObjToObj(src: Relation, dst: Relation)
    modifies dst`subjectId, dst`classId, dst`instanceState, dst`personState
    ensures dst.subjectId == old(src.subjectId) ^ old(dst.subjectId)
    ensures dst.classId == old(src.classId) ^ old(dst.classId)
    ensures dst.instanceState == old(dst.instanceState) | old(src.instanceState)
    ensures dst.personState == old(src.personState).RotateLeft(2)
    ensures dst.Value() == MapObjToObjValue(old(src.Value()), old(dst.Value()))
  {
    var subjectId, classId := src.subjectId ^ dst.subjectId, src.classId ^ dst.classId;
    var instanceState, personState := dst.instanceState | src.instanceState, RotateLeftMacro(src.personState, 2);
    RotateLeftIsRotation(src.personState, 2);
    assert old(dst.Value()).(subjectId := subjectId, classId := classId, instanceState := instanceState,
                             personState := personState) == MapObjToObjValue(old(src.Value()), old(dst.Value()));
    dst.subjectId, dst.classId, dst.instanceState, dst.personState := subjectId, classId, instanceState, personState;
  }

  /** Mapping twice with the same source restores the subject and class ids
      (XOR is an involution) and keeps the OR-merged instance state (idempotent). */
  lemma MapObjToObjTwice(src: RelationValue, dst: RelationValue)
    ensures MapObjToObjValue(src, MapObjToObjValue(src, dst)).subjectId == dst.subjectId
    ensures MapObjToObjValue(src, MapObjToObjValue(src, dst)).classId == dst.classId
    ensures MapObjToObjValue(src, MapObjToObjValue(src, dst)).instanceState
            == MapObjToObjValue(src, dst).instanceState
  {
  }

  /** The merged instance state keeps every bit of both records. */
  lemma MapObjToObjGainsBits(src: RelationValue, dst: RelationValue)
    ensures MapObjToObjValue(src, dst).instanceState & dst.instanceState == dst.instanceState
    ensures MapObjToObjValue(src, dst).instanceState & src.instanceState == src.instanceState
  {
  }

  /** The person state written does not depend on `dst`, is an 8-bit rotation of
      the source's, and the twelve fields the transform does not name stay. */
  lemma MapObjToObjPersonState(src: RelationValue, dst: RelationValue, other: RelationValue)
    ensures MapObjToObjValue(src, dst).personState == MapObjToObjValue(src, other).personState
    ensures MapObjToObjValue(src, dst).personState == src.personState.RotateLeft(2)
    ensures var r := MapObjToObjValue(src, dst);
            r.subjectType == dst.subjectType && r.subjectState == dst.subjectState &&
            r.subjectClass == dst.subjectClass && r.classCategory == dst.classCategory &&
            r.classTaxonomy == dst.classTaxonomy && r.classLevel == dst.classLevel &&
            r.instanceId == dst.instanceId && r.instanceType == dst.instanceType &&
            r.instanceFlags == dst.instanceFlags && r.personId == dst.personId &&
            r.personRole == dst.personRole && r.personAuth == dst.personAuth
  {
    RotateLeftIsRotation(src.personState, 2);
  }

  /** Mapping a record onto itself zeroes its subject and class ids and keeps
      its instance state. */
  lemma MapObjToObjOntoItself(v: RelationValue)
    ensures MapObjToObjValue(v, v).subjectId == 0 && MapObjToObjValue(v, v).classId == 0
    ensures MapObjToObjValue(v, v).instanceState == v.instanceState
  {
  }

  /** The relation-mapping example: subjects 0x01 onto 0x04 give 0x05, classes
      0x02 onto 0x05 give 0x07. */
  lemma MapObjToObjExample(src: RelationValue, dst: RelationValue)
    requires src.subjectId == 0x01 && src.classId == 0x02
    requires dst.subjectId == 0x04 && dst.classId == 0x05
    ensures MapObjToObjValue(src, dst).subjectId == 0x05
    ensures MapObjToObjValue(src, dst).classId == 0x07
  {
  }

  // ---------------------------------------------------------------------------
  // apply_person_model
  // ---------------------------------------------------------------------------

  /** Number of one bits of a byte, counted from the least significant end. */
  function Popcount(x: bv8): nat
    decreases x
  {
    if x == 0 then 0 else (x & 1) as nat + Popcount(x >> 1)
  }

  /** A byte whose bits at and above position `k` are zero has at most `k` one bits. */
  lemma {:induction false} PopcountAtMost(x: bv8, k: nat)
    requires k <= 8 && x >> k == 0
    ensures Popcount(x) <= k
  {
    if x != 0 {
      assert k != 0;
      assert (x >> 1) >> (k - 1) == 0;
      PopcountAtMost(x >> 1, k - 1);
    }
  }

  lemma PopcountBound(x: bv8)
    ensures Popcount(x) <= 8
  {
    PopcountAtMost(x, 8);
  }

  /** The three state bits: active (bit 0 of a), connected (bit 1 of b) and
      differential (bit 2 of a ^ b), each in its own position. */
  function PersonState(a: bv8, b: bv8): (s: bv8)
    ensures s < 8
    ensures (s & 1 != 0) == (a & 0x01 != 0)
    ensures (s & 2 != 0) == (b & 0x02 != 0)
    ensures (s & 4 != 0) == ((a ^ b) & 0x04 != 0)
  {
    (a & 0x01) | (b & 0x02) | ((a ^ b) & 0x04)
  }

  /** `apply_person_model(rel, a, b)`. The authority byte is accumulated bit by
      bit in a `while` loop over a shifted copy of `a ^ b`. Only the four person
      fields may change; the subject, class and instance fields keep their values. */
  method ApplyPersonModel(rel: Relation, a: bv8, b: bv8)
    modifies rel`personId, rel`personRole, rel`personAuth, rel`personState
    ensures rel.personId == a && rel.personRole == b
    ensures rel.personAuth as nat == Popcount(a ^ b) && rel.personAuth <= 8
    ensures rel.personState == PersonState(a, b)
  {
    rel.personId := a;
    rel.personRole := b;

    var xorVal := a ^ b;
    rel.personAuth := 0;
    PopcountBound(a ^ b);
    while xorVal != 0
      invariant rel.personAuth as nat + Popcount(xorVal) == Popcount(a ^ b) <= 8
      invariant rel.personId == a && rel.personRole == b
      decreases xorVal
    {
      PopcountStep(rel.personAuth, xorVal);
      rel.personAuth := rel.personAuth + (xorVal & 1);
      xorVal := xorVal >> 1;
    }

    rel.personState := 0;
    if a & 0x01 != 0 { rel.personState := BitSet8(rel.personState, 0); }
    assert rel.personState == a & 0x01;
    if b & 0x02 != 0 { rel.personState := BitSet8(rel.personState, 1); }
    assert rel.personState == (a & 0x01) | (b & 0x02);
    if (a ^ b) & 0x04 != 0 { rel.personState := BitSet8(rel.personState, 2); }
  }

  /** One iteration of the counting loop: adding the low bit and shifting it out
      keeps the running count plus the bits still to count, without wrapping. */
  lemma PopcountStep(auth: bv8, x: bv8)
    requires x != 0 && auth as nat + Popcount(x) <= 8
    ensures (auth + (x & 1)) as nat + Popcount(x >> 1) == auth as nat + Popcount(x)
  {
    assert x & 1 <= 1;
  }

  /** The person-model example: 0xAA against 0x55 differ in all eight bits. */
  lemma PersonModelExample()
    ensures Popcount(0xAA ^ 0x55) == 8
    ensures PersonState(0xAA, 0x55) == 0x04
  {
    assert 0xAA ^ 0x55 == 0xFF as bv8;
    assert Popcount(0x01) == 1;
    assert Popcount(0x03) == 2;
    assert Popcount(0x07) == 3;
    assert Popcount(0x0F) == 4;
    assert Popcount(0x1F) == 5;
    assert Popcount(0x3F) == 6;
    assert Popcount(0x7F) == 7;
  }

  /** The relation-mapping example run on records: mapping rel1 onto rel2 and
      then applying the person model to rel1. */
  method RelationExample() returns (subject: bv8, auth: bv8)
    ensures subject == 0x05 && auth == 8
  {
    var zero := RelationValue(0, 0, 0, 0, 0, 0, 0, 0, 0, 0, 0, 0, 0, 0, 0, 0);
    var rel1 := new Relation(zero.(subjectId := 0x01, subjectType := 0x10, classId := 0x02, instanceId := 0x03));
    var rel2 := new Relation(zero.(subjectId := 0x04, subjectType := 0x20, classId := 0x05, instanceId := 0x06));
    MapObjToObj(rel1, rel2);
    subject := rel2.subjectId;
    ApplyPersonModel(rel1, 0xAA, 0x55);
    PersonModelExample();
    auth := rel1.personAuth;
  }
}

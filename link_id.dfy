/** `IncidenteventlinkId`, the composite key of an incident-event link: its
    `equals` and `hashCode`, over Java's nullable `Integer` fields and 32-bit
    `int` arithmetic. */
module LinkIds {
  import opened Wrappers
  import opened Entities

  /** Java's `int`. */
  type Int32 = x: int | -0x8000_0000 <= x < 0x8000_0000

  /** The key's two fields; either may be null. */
  datatype LinkId = LinkId(reportid: Option<Int32>, logeventid: Option<Int32>)

  /** A Java object reference as `equals` may receive it: null, a key
      object, or an object of another class, each object with its own
      identity. */
  datatype Obj = Null | KeyObject(ref: nat, key: LinkId) | OtherObject(ref: nat)

  /** `equals` (lines 22-29): the same reference is equal; null or another
      class is not; otherwise both fields must be equal, with
      `Objects.equals` treating two nulls as equal. */
  function Equals(self: Obj, o: Obj): bool
    requires self.KeyObject?
  {
    if self == o then true
    else if !o.KeyObject? then false
    else self.key.reportid == o.key.reportid && self.key.logeventid == o.key.logeventid
  }

  /** Two's-complement truncation of an integer to 32 bits. */
  function ToInt32(x: int): (r: Int32)
    ensures (r - x) % 0x1_0000_0000 == 0
    ensures -0x8000_0000 <= x < 0x8000_0000 ==> r == x
  {
    (x + 0x8000_0000) % 0x1_0000_0000 - 0x8000_0000
  }

  /** `Integer.hashCode` of a nullable field, as `Objects.hash` takes it. */
  function FieldHash(v: Option<Int32>): Int32
  {
    if v.Some? then v.value else 0
  }

  /** `hashCode` (lines 31-34): `Objects.hash(reportid, logeventid)`, that is
      31 * (31 * 1 + h(reportid)) + h(logeventid) in 32-bit arithmetic. */
  function HashCode(k: LinkId): (h: Int32)
    ensures h == ToInt32(961 + 31 * FieldHash(k.reportid) + FieldHash(k.logeventid))
  {
    var step := ToInt32(31 * 1 + FieldHash(k.reportid));
    ToInt32(31 * step + FieldHash(k.logeventid))
  }

  /** `equals` is reflexive. */
  lemma EqualsReflexive(x: Obj)
    requires x.KeyObject?
    ensures Equals(x, x)
  {
  }

  /** `equals` refuses null and objects of another class. */
  lemma EqualsRefusesOthers(x: Obj, ref: nat)
    requires x.KeyObject?
    ensures !Equals(x, Null) && !Equals(x, OtherObject(ref))
  {
  }

  /** Two key objects are equal exactly when their fields are. */
  lemma EqualsIffFieldsEqual(x: Obj, y: Obj)
    requires x.KeyObject? && y.KeyObject?
    ensures Equals(x, y) <==> x.key.reportid == y.key.reportid && x.key.logeventid == y.key.logeventid
  {
  }

  /** `equals` is symmetric and transitive on key objects. */
  lemma EqualsEquivalence(x: Obj, y: Obj, z: Obj)
    requires x.KeyObject? && y.KeyObject? && z.KeyObject?
    ensures Equals(x, y) ==> Equals(y, x)
    ensures Equals(x, y) && Equals(y, z) ==> Equals(x, z)
  {
  }

  /** Equal keys hash alike, as `hashCode` reads only the two fields. */
  lemma EqualKeysHashAlike(x: Obj, y: Obj)
    requires x.KeyObject? && y.KeyObject?
    ensures Equals(x, y) ==> HashCode(x.key) == HashCode(y.key)
  {
    if Equals(x, y) {
      EqualsIffFieldsEqual(x, y);
      assert x.key == y.key;
    }
  }

  /** The hash does not tell keys apart: (0, 31) and (1, 0) collide, and so
      do a key of nulls and a key of zeros, which `equals` separates. */
  lemma HashCollisions()
    ensures HashCode(LinkId(Some(0), Some(31))) == HashCode(LinkId(Some(1), Some(0))) == 992
    ensures !Equals(KeyObject(0, LinkId(Some(0), Some(31))), KeyObject(1, LinkId(Some(1), Some(0))))
    ensures HashCode(LinkId(None, None)) == HashCode(LinkId(Some(0), Some(0))) == 961
    ensures !Equals(KeyObject(0, LinkId(None, None)), KeyObject(1, LinkId(Some(0), Some(0))))
  {
  }

  /** Large ids wrap around: the hash of (2^31 - 1, 0) is negative. */
  lemma HashWrapsAround()
    ensures HashCode(LinkId(Some(0x7fff_ffff), Some(0))) == -2147482718
  {
  }

  /** The key of a stored link: both ids present. */
  function IdOf(k: LinkKey): LinkId
    requires -0x8000_0000 <= k.reportid < 0x8000_0000 && -0x8000_0000 <= k.logeventid < 0x8000_0000
  {
    LinkId(Some(k.reportid as Int32), Some(k.logeventid as Int32))
  }

  /** The link table's keys compare as `equals` compares their objects, so a
      set of `LinkKey` holds one link per key exactly as the entity does. */
  lemma LinkKeysCompareAsEquals(a: LinkKey, b: LinkKey, ra: nat, rb: nat)
    requires -0x8000_0000 <= a.reportid < 0x8000_0000 && -0x8000_0000 <= a.logeventid < 0x8000_0000
    requires -0x8000_0000 <= b.reportid < 0x8000_0000 && -0x8000_0000 <= b.logeventid < 0x8000_0000
    ensures Equals(KeyObject(ra, IdOf(a)), KeyObject(rb, IdOf(b))) <==> a == b
  {
  }
}

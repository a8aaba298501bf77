/**
 * A contact point of a contact manifold: its local point, the cached normal
 * and friction impulses, and the identifier of the features that touch.
 */
module ManifoldPoints {
  import opened Vectors

  /**
   * The identifier of a contact point. Its internal layout is not part of
   * this model; it is one opaque feature key that construction and `set` copy.
   */
  class ContactID {
    var key: int

    constructor ()
      ensures key == 0
    {
      key := 0;
    }

    constructor Copy(c: ContactID)
      ensures key == c.key
    {
      key := c.key;
    }

    method Set(c: ContactID)
      modifies this
      ensures key == old(c.key)
    {
      key := c.key;
    }
  }

  /** The value of a manifold point: all that a copy must preserve. */
  datatype PointRecord = PointRecord(localPoint: Vec2, normalImpulse: real, tangentImpulse: real, id: int)

  const ZeroPoint := PointRecord(Zero, 0.0, 0.0, 0)

  class ManifoldPoint {
    /** Usage depends on the manifold type. */
    const localPoint: MutableVec2
    /** The non-penetration impulse. */
    var normalImpulse: real
    /** The friction impulse. */
    var tangentImpulse: real
    const id: ContactID

    function Record(): PointRecord
      reads this, localPoint, id
    {
      PointRecord(localPoint.Value(), normalImpulse, tangentImpulse, id.key)
    }

    /** A blank point with everything zeroed out. */
    constructor ()
      ensures fresh(localPoint) && fresh(id)
      ensures Record() == ZeroPoint
    {
      localPoint := new MutableVec2.Origin();
      normalImpulse := 0.0;
      tangentImpulse := 0.0;
      id := new ContactID();
    }

    /** A copy of `cp` that shares none of its objects. */
    constructor Copy(cp: ManifoldPoint)
      ensures fresh(localPoint) && fresh(id)
      ensures Record() == cp.Record()
    {
      var lp := cp.localPoint.Clone();
      localPoint := lp;
      normalImpulse := cp.normalImpulse;
      tangentImpulse := cp.tangentImpulse;
      id := new ContactID.Copy(cp.id);
    }

    /**
     * Copies the four fields of `cp` into this point's own objects. The
     * source point keeps its value, even when it is this point.
     */
    method Set(cp: ManifoldPoint)
      modifies this, localPoint, id
      ensures Record() == old(cp.Record())
      ensures cp.Record() == old(cp.Record())
    {
      localPoint.Set(cp.localPoint);
      normalImpulse := cp.normalImpulse;
      tangentImpulse := cp.tangentImpulse;
      id.Set(cp.id);
    }
  }
}
